/** The per-setup posting loop (`run_setup_continuously`) and the start-up
    pass that spawns one loop per running setup (`startup_manager`). A loop
    holds a snapshot of its setup and its token from the moment it was
    spawned, and on every iteration rereads only the `running` flag. The
    table of live loops (`running_tasks`) is a map from task key to the loop's
    handle. */
module Scheduler {
  import opened Common
  import opened Strings
  import opened Store
  import Sender

  /** The key of a setup's loop: the user id, an underscore, the setup name. */
  function TaskKey(user: UserId, name: SetupName): string {
    user + "_" + name
  }

  /** Keys are unambiguous for user ids without an underscore (Discord ids
      are decimal digits). */
  lemma TaskKeyInjective(u1: UserId, n1: SetupName, u2: UserId, n2: SetupName)
    requires '_' !in u1 && '_' !in u2
    requires TaskKey(u1, n1) == TaskKey(u2, n2)
    ensures u1 == u2 && n1 == n2
  {
    var k := TaskKey(u1, n1);
    assert k[|u1|] == '_' && k[|u2|] == '_';
    assert forall i :: 0 <= i < |u1| ==> k[i] == u1[i];
    assert forall i :: 0 <= i < |u2| ==> k[i] == u2[i];
    assert |u1| == |u2|;
    assert u1 == k[..|u1|] == u2;
    assert n1 == k[|u1| + 1..] == n2;
  }

  /** For arbitrary strings the key is ambiguous. */
  lemma TaskKeyCollision()
    ensures TaskKey("a_b", "c") == TaskKey("a", "b_c")
  {
  }

  /** Python's `int()` on a float: truncation toward zero. */
  function Trunc(x: real): (r: int)
    ensures x >= 0.0 ==> r >= 0 && r as real <= x < r as real + 1.0
    ensures x < 0.0 ==> r <= 0 && r as real - 1.0 < x <= r as real
  {
    if x >= 0.0 then x.Floor else -((-x).Floor)
  }

  /** A live loop: whose setup it serves, the setup as it was when the loop
      was spawned, and the token it was spawned with. */
  datatype Handle = Handle(user: UserId, name: SetupName, snapshot: Setup, token: string)

  type Tasks = map<string, Handle>

  /** What goes wrong inside an iteration that is not one of the loop's own
      checks: nothing, a `KeyError` (a snapshot without `message` or
      `interval`), or any other exception (a store that cannot be read or
      written, a network error escaping the sender). */
  datatype Fault = NoFault | MissingKey | Unexpected

  /** What the world answers during one iteration: a fault, the verdict of
      the loop's own token check, that of the sender's token check, the
      sender's attempt outcomes, and the raw random draw. */
  datatype Env = Env(fault: Fault, tokenOk: bool, sendTokenOk: bool, attempts: seq<Sender.Attempt>, draw: nat)

  /** The environment answers every attempt the sender can make. */
  predicate Answers(env: Env) {
    |env.attempts| >= Sender.MaxRetries
  }

  /** Why a loop ended. */
  datatype Reason = Deactivated | NoChannel | TokenInvalid | ConfigKeyError | Crashed

  /** How an iteration ends: the loop waits and goes round again, or it ends
      after an optional last pause. */
  datatype Outcome = Wait(seconds: int) | Stop(reason: Reason, pause: int)

  /** One call of `send_message`: the channel posted to, the text posted as
      the payload's `content`, and what the sender reported. */
  datatype Delivery = Delivery(channel: string, content: string, report: Sender.Report)

  /** One iteration: the store it leaves behind, the delivery it made (if it
      reached the sender) and how it ended. */
  datatype Iteration = Iteration(accounts: Accounts, delivery: Option<Delivery>, outcome: Outcome)

  /** Seconds to wait before the next round: the truncated interval plus a
      uniform draw from `0..R` (`random.randint(0, R)`), where `R` is the
      truncated random interval. `R < 0` makes `randint` raise. */
  function Delay(snapshot: Setup, draw: nat): (r: Option<int>)
    ensures Trunc(snapshot.randomInterval * 60.0) < 0 <==> r.None?
    ensures r.Some? ==>
      Trunc(snapshot.interval * 60.0) <= r.value <= Trunc(snapshot.interval * 60.0) + Trunc(snapshot.randomInterval * 60.0)
  {
    var base := Trunc(snapshot.interval * 60.0);
    var spread := Trunc(snapshot.randomInterval * 60.0);
    if spread < 0 then None else Some(base + draw % (spread + 1))
  }

  /** Every wait in range is drawn by some value. */
  lemma DelayCoversRange(snapshot: Setup, extra: int)
    requires 0 <= extra <= Trunc(snapshot.randomInterval * 60.0)
    ensures Delay(snapshot, extra) == Some(Trunc(snapshot.interval * 60.0) + extra)
  {
  }

  /** What the handler for unexpected exceptions does: the written loop ends
      after a minute's pause, the corrected one goes round again after it. */
  function OnCrash(correct: bool): Outcome {
    if correct then Wait(60) else Stop(Crashed, 60)
  }

  /** A six-second interval without jitter waits exactly six seconds,
      whatever is drawn. */
  lemma ShortIntervalWait(channel: string, message: string, running: bool, updated: int, draw: nat)
    ensures Delay(Setup(channel, message, 0.1, 0.0, running, updated), draw) == Some(6)
  {
    assert 0.1 * 60.0 == 6.0;
    assert Trunc(6.0) == 6;
  }

  /** The account with setup `name` switched off: the same token,
      subscription id and setups, only that one's flag cleared. */
  function SwitchedOff(a: Account, name: SetupName): (r: Account)
    requires name in a.setups
    ensures r.token == a.token && r.subscriptionId == a.subscriptionId
    ensures name in r.setups && r.setups[name] == a.setups[name].(running := false)
    ensures SameExcept(a.setups, r.setups, name)
  {
    a.(setups := a.setups[name := a.setups[name].(running := false)])
  }

  /** Everything an iteration does once no fault has occurred, in the order
      of the source: reread the flag, check the channel (before stripping),
      check the token (switching the setup off in the store if it is still
      there), send to the stripped channel, and pick the delay. The last step
      can raise, which ends the loop as written and is retried after a minute
      in the corrected loop. */
  function Body(accounts: Accounts, user: UserId, name: SetupName, snapshot: Setup, token: string, env: Env, correct: bool): (r: Iteration)
    requires Answers(env)
    ensures !IsRunning(accounts, user, name) ==> r == Iteration(accounts, None, Stop(Deactivated, 0))
    ensures IsRunning(accounts, user, name) && snapshot.channel == [] ==> r == Iteration(accounts, None, Stop(NoChannel, 0))
    ensures r.outcome == Stop(TokenInvalid, 0) <==> IsRunning(accounts, user, name) && snapshot.channel != [] && !env.tokenOk
    ensures r.outcome == Stop(TokenInvalid, 0) ==>
      && r.delivery.None?
      && user in r.accounts && name in r.accounts[user].setups
      && !IsRunning(r.accounts, user, name)
      && r.accounts[user] == SwitchedOff(accounts[user], name)
      && SameExcept(accounts, r.accounts, user)
    ensures r.outcome != Stop(TokenInvalid, 0) ==> r.accounts == accounts
    ensures r.delivery.Some? <==> IsRunning(accounts, user, name) && snapshot.channel != [] && env.tokenOk
    ensures r.delivery.Some? ==>
      r.delivery.value == Delivery(Strip(snapshot.channel), snapshot.message, Sender.Send(env.sendTokenOk, env.attempts, Sender.MaxRetries))
    ensures r.delivery.Some? ==>
      r.outcome == (if Delay(snapshot, env.draw).Some? then Wait(Delay(snapshot, env.draw).value) else OnCrash(correct))
  {
    if !IsRunning(accounts, user, name) then Iteration(accounts, None, Stop(Deactivated, 0))
    else if snapshot.channel == [] then Iteration(accounts, None, Stop(NoChannel, 0))
    else if !env.tokenOk then
      Iteration(accounts[user := SwitchedOff(accounts[user], name)], None, Stop(TokenInvalid, 0))
    else
      var report := Sender.Send(env.sendTokenOk, env.attempts, Sender.MaxRetries);
      var delivery := Some(Delivery(Strip(snapshot.channel), snapshot.message, report));
      match Delay(snapshot, env.draw)
      case Some(wait) => Iteration(accounts, delivery, Wait(wait))
      case None => Iteration(accounts, delivery, OnCrash(correct))
  }

  /** One iteration of `run_setup_continuously` as written: the `try` encloses
      the whole `while`, so every exception ends the loop, the unexpected ones
      after a one-minute pause. */
  function StepAsWritten(accounts: Accounts, user: UserId, name: SetupName, snapshot: Setup, token: string, env: Env): (r: Iteration)
    requires Answers(env)
    ensures env.fault == MissingKey ==> r == Iteration(accounts, None, Stop(ConfigKeyError, 0))
    ensures env.fault == Unexpected ==> r == Iteration(accounts, None, Stop(Crashed, 60))
    ensures env.fault == NoFault ==> r == Body(accounts, user, name, snapshot, token, env, false)
  {
    match env.fault
    case MissingKey => Iteration(accounts, None, Stop(ConfigKeyError, 0))
    case Unexpected => Iteration(accounts, None, Stop(Crashed, 60))
    case NoFault => Body(accounts, user, name, snapshot, token, env, false)
  }

  /** One iteration as the handler's own words intend ("wait one minute
      before trying again"): an unexpected exception pauses sixty seconds
      and the loop goes round again. A `KeyError` still ends it. */
  function Step(accounts: Accounts, user: UserId, name: SetupName, snapshot: Setup, token: string, env: Env): (r: Iteration)
    requires Answers(env)
    ensures env.fault == MissingKey ==> r == Iteration(accounts, None, Stop(ConfigKeyError, 0))
    ensures env.fault == Unexpected ==> r == Iteration(accounts, None, Wait(60))
    ensures env.fault == NoFault ==> r == Body(accounts, user, name, snapshot, token, env, true)
  {
    match env.fault
    case MissingKey => Iteration(accounts, None, Stop(ConfigKeyError, 0))
    case Unexpected => Iteration(accounts, None, Wait(60))
    case NoFault => Body(accounts, user, name, snapshot, token, env, true)
  }

  /** The two versions differ only where an unexpected exception occurs: the
      written loop ends there, the intended one waits and continues. */
  lemma StepsAgree(accounts: Accounts, user: UserId, name: SetupName, snapshot: Setup, token: string, env: Env)
    requires Answers(env)
    ensures var w := StepAsWritten(accounts, user, name, snapshot, token, env);
      var c := Step(accounts, user, name, snapshot, token, env);
      && w.accounts == c.accounts && w.delivery == c.delivery
      && (w.outcome != c.outcome ==> w.outcome == Stop(Crashed, 60) && c.outcome == Wait(60))
  {
  }

  /** In the written loop a transient error ends the loop of a setup that is
      still switched on: the store keeps `running` true while no loop serves
      it. */
  lemma TransientErrorOrphans(accounts: Accounts, user: UserId, name: SetupName, snapshot: Setup, token: string, env: Env)
    requires Answers(env) && env.fault == Unexpected
    requires IsRunning(accounts, user, name)
    ensures StepAsWritten(accounts, user, name, snapshot, token, env).outcome.Stop?
    ensures IsRunning(StepAsWritten(accounts, user, name, snapshot, token, env).accounts, user, name)
    ensures Step(accounts, user, name, snapshot, token, env).outcome.Wait?
  {
  }

  /** The result of running a loop for some rounds: the deliveries it made,
      the waits between rounds, the reason it ended (`None` while it still
      runs), the store and the task table it leaves behind. */
  datatype Run = Run(deliveries: seq<Delivery>, waits: seq<int>, ended: Option<(Reason, int)>, accounts: Accounts, tasks: Tasks)

  /** A store write made by someone else between two rounds. */
  type Edit = Accounts -> Accounts

  /** The store after an edit. */
  function Apply(e: Edit, a: Accounts): Accounts {
    e(a)
  }

  /** One round of a loop on the store it finds: the written iteration, or
      the corrected one. */
  function Round(correct: bool, store: Accounts, h: Handle, env: Env): Iteration
    requires Answers(env)
  {
    if correct then Step(store, h.user, h.name, h.snapshot, h.token, env)
    else StepAsWritten(store, h.user, h.name, h.snapshot, h.token, env)
  }

  /** The delivery an iteration made, as a list of zero or one. */
  function Sent(it: Iteration): seq<Delivery> {
    if it.delivery.Some? then [it.delivery.value] else []
  }

  /** A loop's first `|rounds|` rounds at most. Before each round the rest of
      the bot may change the store (`edits`); the round then runs on that
      store with its environment. The loop ends at the first `Stop`, and its
      key is then dropped from the task table (the `finally` clause). */
  function Loop(correct: bool, accounts: Accounts, tasks: Tasks, h: Handle, edits: seq<Edit>, rounds: seq<Env>): (r: Run)
    requires |edits| == |rounds|
    requires forall i :: 0 <= i < |rounds| ==> Answers(rounds[i])
    ensures r.ended.None? ==> r.tasks == tasks && |r.waits| == |rounds|
    ensures r.ended.Some? ==> r.tasks == tasks - {TaskKey(h.user, h.name)} && |r.waits| < |rounds|
    ensures |r.deliveries| <= |r.waits| + 1
    ensures rounds == [] ==> r == Run([], [], None, accounts, tasks)
    decreases |rounds|
  {
    if rounds == [] then Run([], [], None, accounts, tasks)
    else
      var it := Round(correct, Apply(edits[0], accounts), h, rounds[0]);
      match it.outcome
      case Stop(reason, pause) => Run(Sent(it), [], Some((reason, pause)), it.accounts, tasks - {TaskKey(h.user, h.name)})
      case Wait(seconds) =>
        var rest := Loop(correct, it.accounts, tasks, h, edits[1..], rounds[1..]);
        Run(Sent(it) + rest.deliveries, [seconds] + rest.waits, rest.ended, rest.accounts, rest.tasks)
  }

  /** The first round decides how a run starts: a round that stops ends the
      run with its delivery, no wait, its reason and pause, and the loop's
      key gone from the task table; a round that waits makes the first wait,
      with its seconds, after its delivery. */
  lemma LoopFirstRound(correct: bool, accounts: Accounts, tasks: Tasks, h: Handle, edits: seq<Edit>, rounds: seq<Env>)
    requires |edits| == |rounds|
    requires forall i :: 0 <= i < |rounds| ==> Answers(rounds[i])
    requires rounds != []
    ensures var it := Round(correct, Apply(edits[0], accounts), h, rounds[0]);
      var r := Loop(correct, accounts, tasks, h, edits, rounds);
      && (it.outcome.Stop? ==> r == Run(Sent(it), [], Some((it.outcome.reason, it.outcome.pause)), it.accounts, tasks - {TaskKey(h.user, h.name)}))
      && (it.outcome.Wait? ==> |r.waits| > 0 && r.waits[0] == it.outcome.seconds && Sent(it) <= r.deliveries)
  {
    var it := Round(correct, Apply(edits[0], accounts), h, rounds[0]);
    if it.outcome.Wait? {
      var rest := Loop(correct, it.accounts, tasks, h, edits[1..], rounds[1..]);
      assert Sent(it) <= Sent(it) + rest.deliveries;
    }
  }

  /** The store round `i` runs on, once the edits before it have been made,
      when every earlier round went round again. */
  function StoreBefore(correct: bool, accounts: Accounts, h: Handle, edits: seq<Edit>, rounds: seq<Env>, i: nat): Accounts
    requires |edits| == |rounds| && i < |rounds|
    requires forall k :: 0 <= k < |rounds| ==> Answers(rounds[k])
    decreases i
  {
    if i == 0 then Apply(edits[0], accounts)
    else StoreBefore(correct, Round(correct, Apply(edits[0], accounts), h, rounds[0]).accounts, h, edits[1..], rounds[1..], i - 1)
  }

  /** What the first `n` rounds deliver, each on the store it found, in
      round order. */
  function Delivered(correct: bool, accounts: Accounts, h: Handle, edits: seq<Edit>, rounds: seq<Env>, n: nat): seq<Delivery>
    requires |edits| == |rounds| && n <= |rounds|
    requires forall k :: 0 <= k < |rounds| ==> Answers(rounds[k])
    decreases n
  {
    if n == 0 then []
    else
      var before := StoreBefore(correct, accounts, h, edits, rounds, n - 1);
      Delivered(correct, accounts, h, edits, rounds, n - 1) + Sent(Round(correct, before, h, rounds[n - 1]))
  }

  /** A round that goes round again puts its wait in front of the rest of
      the loop. */
  lemma LoopWaitStep(correct: bool, accounts: Accounts, tasks: Tasks, h: Handle, edits: seq<Edit>, rounds: seq<Env>)
    requires |edits| == |rounds|
    requires forall i :: 0 <= i < |rounds| ==> Answers(rounds[i])
    requires rounds != [] && Round(correct, Apply(edits[0], accounts), h, rounds[0]).outcome.Wait?
    ensures var it := Round(correct, Apply(edits[0], accounts), h, rounds[0]);
      var r := Loop(correct, accounts, tasks, h, edits, rounds);
      var rest := Loop(correct, it.accounts, tasks, h, edits[1..], rounds[1..]);
      && r.waits == [it.outcome.seconds] + rest.waits && r.ended == rest.ended
      && r.deliveries == Sent(it) + rest.deliveries
      && r.accounts == rest.accounts
  {
  }

  /** Round `i > 0` finds the store that round `i - 1` of the loop started
      one round later finds. */
  lemma StoreBeforeShift(correct: bool, accounts: Accounts, h: Handle, edits: seq<Edit>, rounds: seq<Env>, i: nat)
    requires |edits| == |rounds| && 0 < i < |rounds|
    requires forall k :: 0 <= k < |rounds| ==> Answers(rounds[k])
    ensures StoreBefore(correct, accounts, h, edits, rounds, i)
      == StoreBefore(correct, Round(correct, Apply(edits[0], accounts), h, rounds[0]).accounts, h, edits[1..], rounds[1..], i - 1)
    ensures rounds[i] == rounds[1..][i - 1]
  {
  }

  /** The first `n` rounds deliver what round 0 delivers, then what the
      first `n - 1` rounds of the loop started one round later deliver. */
  lemma {:induction false} DeliveredShift(correct: bool, accounts: Accounts, h: Handle, edits: seq<Edit>, rounds: seq<Env>, n: nat)
    requires |edits| == |rounds| && 0 < n <= |rounds|
    requires forall k :: 0 <= k < |rounds| ==> Answers(rounds[k])
    ensures var it := Round(correct, Apply(edits[0], accounts), h, rounds[0]);
      Delivered(correct, accounts, h, edits, rounds, n)
        == Sent(it) + Delivered(correct, it.accounts, h, edits[1..], rounds[1..], n - 1)
    decreases n
  {
    var it := Round(correct, Apply(edits[0], accounts), h, rounds[0]);
    if n == 1 {
      assert Delivered(correct, accounts, h, edits, rounds, 1) == [] + Sent(it);
      assert Delivered(correct, it.accounts, h, edits[1..], rounds[1..], 0) == [];
    } else {
      DeliveredShift(correct, accounts, h, edits, rounds, n - 1);
      StoreBeforeShift(correct, accounts, h, edits, rounds, n - 1);
      var last := Sent(Round(correct, StoreBefore(correct, it.accounts, h, edits[1..], rounds[1..], n - 2), h, rounds[1..][n - 2]));
      ConcatShift(Delivered(correct, accounts, h, edits, rounds, n), Delivered(correct, accounts, h, edits, rounds, n - 1),
        Delivered(correct, it.accounts, h, edits[1..], rounds[1..], n - 1), Delivered(correct, it.accounts, h, edits[1..], rounds[1..], n - 2),
        Sent(it), last);
    }
  }

  /** Moving a last element from one side of a split to the other. */
  lemma ConcatShift<T>(whole: seq<T>, init: seq<T>, tail: seq<T>, tailInit: seq<T>, head: seq<T>, last: seq<T>)
    requires whole == init + last && init == head + tailInit && tail == tailInit + last
    ensures whole == head + tail
  {
  }

  /** Each wait a loop made is the `Wait` of the round at that position, run
      on the store that round found. */
  lemma {:induction false} LoopWaits(correct: bool, accounts: Accounts, tasks: Tasks, h: Handle, edits: seq<Edit>, rounds: seq<Env>, i: nat)
    requires |edits| == |rounds|
    requires forall k :: 0 <= k < |rounds| ==> Answers(rounds[k])
    requires i < |Loop(correct, accounts, tasks, h, edits, rounds).waits|
    ensures Round(correct, StoreBefore(correct, accounts, h, edits, rounds, i), h, rounds[i]).outcome
      == Wait(Loop(correct, accounts, tasks, h, edits, rounds).waits[i])
    decreases i
  {
    var r := Loop(correct, accounts, tasks, h, edits, rounds);
    var it := Round(correct, Apply(edits[0], accounts), h, rounds[0]);
    LoopFirstRound(correct, accounts, tasks, h, edits, rounds);
    assert it.outcome.Wait?;
    var rest := Loop(correct, it.accounts, tasks, h, edits[1..], rounds[1..]);
    LoopWaitStep(correct, accounts, tasks, h, edits, rounds);
    if i > 0 {
      LoopWaits(correct, it.accounts, tasks, h, edits[1..], rounds[1..], i - 1);
      StoreBeforeShift(correct, accounts, h, edits, rounds, i);
      assert r.waits[i] == rest.waits[i - 1];
    }
  }

  /** The step of `LoopDeliveries` for a first round that waits, stated of
      the two runs as values. */
  lemma DeliveriesAfterWait(correct: bool, accounts: Accounts, h: Handle, edits: seq<Edit>, rounds: seq<Env>, it: Iteration, r: Run, rest: Run)
    requires |edits| == |rounds| && rounds != []
    requires forall k :: 0 <= k < |rounds| ==> Answers(rounds[k])
    requires it == Round(correct, Apply(edits[0], accounts), h, rounds[0])
    requires |rest.waits| + (if rest.ended.Some? then 1 else 0) <= |rounds| - 1
    requires rest.deliveries == Delivered(correct, it.accounts, h, edits[1..], rounds[1..], |rest.waits| + if rest.ended.Some? then 1 else 0)
    requires r.deliveries == Sent(it) + rest.deliveries && |r.waits| == 1 + |rest.waits| && r.ended == rest.ended
    ensures |r.waits| + (if r.ended.Some? then 1 else 0) <= |rounds|
    ensures r.deliveries == Delivered(correct, accounts, h, edits, rounds, |r.waits| + if r.ended.Some? then 1 else 0)
  {
    DeliveredShift(correct, accounts, h, edits, rounds, |r.waits| + if r.ended.Some? then 1 else 0);
  }

  /** The case of `LoopDeliveries` for a first round that stops. */
  lemma DeliveriesAtStop(correct: bool, accounts: Accounts, h: Handle, edits: seq<Edit>, rounds: seq<Env>, it: Iteration, r: Run)
    requires |edits| == |rounds| && rounds != []
    requires forall k :: 0 <= k < |rounds| ==> Answers(rounds[k])
    requires it == Round(correct, Apply(edits[0], accounts), h, rounds[0])
    requires r.deliveries == Sent(it) && r.waits == [] && r.ended.Some?
    ensures r.deliveries == Delivered(correct, accounts, h, edits, rounds, |r.waits| + if r.ended.Some? then 1 else 0)
  {
    assert Delivered(correct, accounts, h, edits, rounds, 1) == [] + Sent(it);
  }

  /** `LoopDeliveries` for a first round that waits. */
  lemma {:induction false} LoopDeliveriesAfterWait(correct: bool, accounts: Accounts, tasks: Tasks, h: Handle, edits: seq<Edit>, rounds: seq<Env>)
    requires |edits| == |rounds|
    requires forall i :: 0 <= i < |rounds| ==> Answers(rounds[i])
    requires rounds != [] && Round(correct, Apply(edits[0], accounts), h, rounds[0]).outcome.Wait?
    ensures var r := Loop(correct, accounts, tasks, h, edits, rounds);
      r.deliveries == Delivered(correct, accounts, h, edits, rounds, |r.waits| + if r.ended.Some? then 1 else 0)
    decreases |rounds|, 0
  {
    var it := Round(correct, Apply(edits[0], accounts), h, rounds[0]);
    var r := Loop(correct, accounts, tasks, h, edits, rounds);
    var rest := Loop(correct, it.accounts, tasks, h, edits[1..], rounds[1..]);
    var m := |rest.waits| + if rest.ended.Some? then 1 else 0;
    assert m <= |rounds| - 1;
    LoopDeliveries(correct, it.accounts, tasks, h, edits[1..], rounds[1..]);
    assert rest.deliveries == Delivered(correct, it.accounts, h, edits[1..], rounds[1..], m);
    LoopWaitStep(correct, accounts, tasks, h, edits, rounds);
    assert r.deliveries == Sent(it) + rest.deliveries && |r.waits| == 1 + |rest.waits| && r.ended == rest.ended;
    DeliveriesAfterWait(correct, accounts, h, edits, rounds, it, r, rest);
  }

  /** A loop's deliveries are those of the rounds it ran, in order: every
      round that waited, then the one that stopped, if any. */
  lemma {:induction false} LoopDeliveries(correct: bool, accounts: Accounts, tasks: Tasks, h: Handle, edits: seq<Edit>, rounds: seq<Env>)
    requires |edits| == |rounds|
    requires forall i :: 0 <= i < |rounds| ==> Answers(rounds[i])
    ensures var r := Loop(correct, accounts, tasks, h, edits, rounds);
      r.deliveries == Delivered(correct, accounts, h, edits, rounds, |r.waits| + if r.ended.Some? then 1 else 0)
    decreases |rounds|, 1
  {
    var r := Loop(correct, accounts, tasks, h, edits, rounds);
    if rounds != [] {
      var it := Round(correct, Apply(edits[0], accounts), h, rounds[0]);
      if it.outcome.Wait? {
        LoopDeliveriesAfterWait(correct, accounts, tasks, h, edits, rounds);
      } else {
        LoopFirstRound(correct, accounts, tasks, h, edits, rounds);
        DeliveriesAtStop(correct, accounts, h, edits, rounds, it, r);
      }
    }
  }

  /** Every delivery of the first `n` rounds goes to the snapshot's
      stripped channel with the snapshot's message, whatever the store says
      by then. */
  lemma {:induction false} DeliveredSnapshot(correct: bool, accounts: Accounts, h: Handle, edits: seq<Edit>, rounds: seq<Env>, n: nat)
    requires |edits| == |rounds| && n <= |rounds|
    requires forall k :: 0 <= k < |rounds| ==> Answers(rounds[k])
    ensures forall d :: d in Delivered(correct, accounts, h, edits, rounds, n) ==>
      d.channel == Strip(h.snapshot.channel) && d.content == h.snapshot.message
    decreases n
  {
    if n > 0 {
      DeliveredSnapshot(correct, accounts, h, edits, rounds, n - 1);
      var it := Round(correct, StoreBefore(correct, accounts, h, edits, rounds, n - 1), h, rounds[n - 1]);
      assert it.delivery.Some? ==> it.delivery.value.channel == Strip(h.snapshot.channel) && it.delivery.value.content == h.snapshot.message;
    }
  }

  /** A loop posts only the text it was started with, to the channel it was
      started with: edits to the store between rounds change neither. */
  lemma {:induction false} LoopPostsSnapshot(correct: bool, accounts: Accounts, tasks: Tasks, h: Handle, edits: seq<Edit>, rounds: seq<Env>)
    requires |edits| == |rounds|
    requires forall i :: 0 <= i < |rounds| ==> Answers(rounds[i])
    ensures forall d :: d in Loop(correct, accounts, tasks, h, edits, rounds).deliveries ==>
      d.channel == Strip(h.snapshot.channel) && d.content == h.snapshot.message
    decreases |rounds|
  {
    var r := Loop(correct, accounts, tasks, h, edits, rounds);
    if rounds != [] {
      var it := Round(correct, Apply(edits[0], accounts), h, rounds[0]);
      assert forall d :: d in Sent(it) ==> d.channel == Strip(h.snapshot.channel) && d.content == h.snapshot.message;
      if it.outcome.Wait? {
        var rest := Loop(correct, it.accounts, tasks, h, edits[1..], rounds[1..]);
        LoopWaitStep(correct, accounts, tasks, h, edits, rounds);
        LoopPostsSnapshot(correct, it.accounts, tasks, h, edits[1..], rounds[1..]);
        assert r.deliveries == Sent(it) + rest.deliveries;
      } else {
        LoopFirstRound(correct, accounts, tasks, h, edits, rounds);
      }
    }
  }

  /** A loop ends at its first stop: when it has ended, the round right after
      the last wait is the one that stopped, for the reason and with the
      pause recorded. */
  lemma {:induction false} LoopEndsAtFirstStop(correct: bool, accounts: Accounts, tasks: Tasks, h: Handle, edits: seq<Edit>, rounds: seq<Env>)
    requires |edits| == |rounds|
    requires forall i :: 0 <= i < |rounds| ==> Answers(rounds[i])
    ensures var r := Loop(correct, accounts, tasks, h, edits, rounds);
      r.ended.Some? ==>
        Round(correct, StoreBefore(correct, accounts, h, edits, rounds, |r.waits|), h, rounds[|r.waits|]).outcome
          == Stop(r.ended.value.0, r.ended.value.1)
    decreases |rounds|
  {
    var r := Loop(correct, accounts, tasks, h, edits, rounds);
    if rounds != [] {
      var it := Round(correct, Apply(edits[0], accounts), h, rounds[0]);
      if it.outcome.Wait? {
        var rest := Loop(correct, it.accounts, tasks, h, edits[1..], rounds[1..]);
        LoopEndsAtFirstStop(correct, it.accounts, tasks, h, edits[1..], rounds[1..]);
        LoopWaitStep(correct, accounts, tasks, h, edits, rounds);
        if rest.ended.Some? {
          StoreBeforeShift(correct, accounts, h, edits, rounds, |r.waits|);
        }
      } else {
        assert |r.waits| == 0 && rounds[|r.waits|] == rounds[0];
        assert StoreBefore(correct, accounts, h, edits, rounds, |r.waits|) == Apply(edits[0], accounts);
        assert r.ended == Some((it.outcome.reason, it.outcome.pause));
      }
    }
  }

  /** The store round 0 leaves, as the store it ran on names it. */
  lemma FirstRoundStore(correct: bool, accounts: Accounts, h: Handle, edits: seq<Edit>, rounds: seq<Env>, it: Iteration, store: Accounts)
    requires |edits| == |rounds| && rounds != []
    requires forall k :: 0 <= k < |rounds| ==> Answers(rounds[k])
    requires it == Round(correct, Apply(edits[0], accounts), h, rounds[0]) && store == it.accounts
    ensures store == Round(correct, StoreBefore(correct, accounts, h, edits, rounds, 0), h, rounds[0]).accounts
  {
  }

  /** The step of `LoopStoreEnded` for a first round that waits, stated of
      the two runs as values. */
  lemma StoreAfterWaitEnded(correct: bool, accounts: Accounts, h: Handle, edits: seq<Edit>, rounds: seq<Env>, it: Iteration, r: Run, rest: Run)
    requires |edits| == |rounds| && rounds != []
    requires forall k :: 0 <= k < |rounds| ==> Answers(rounds[k])
    requires it == Round(correct, Apply(edits[0], accounts), h, rounds[0])
    requires |rest.waits| < |rounds| - 1
    requires rest.accounts == Round(correct, StoreBefore(correct, it.accounts, h, edits[1..], rounds[1..], |rest.waits|), h, rounds[1..][|rest.waits|]).accounts
    requires r.accounts == rest.accounts && |r.waits| == 1 + |rest.waits|
    ensures |r.waits| < |rounds|
    ensures r.accounts == Round(correct, StoreBefore(correct, accounts, h, edits, rounds, |r.waits|), h, rounds[|r.waits|]).accounts
  {
    StoreBeforeShift(correct, accounts, h, edits, rounds, |r.waits|);
  }

  /** A run that ended leaves the store its stopping round left, that
      round running on the store it found. An invalid token in a later
      round therefore leaves that round's switch-off in the store. */
  lemma {:induction false} LoopStoreEnded(correct: bool, accounts: Accounts, tasks: Tasks, h: Handle, edits: seq<Edit>, rounds: seq<Env>)
    requires |edits| == |rounds|
    requires forall i :: 0 <= i < |rounds| ==> Answers(rounds[i])
    ensures var r := Loop(correct, accounts, tasks, h, edits, rounds);
      r.ended.Some? ==>
        r.accounts == Round(correct, StoreBefore(correct, accounts, h, edits, rounds, |r.waits|), h, rounds[|r.waits|]).accounts
    decreases |rounds|
  {
    var r := Loop(correct, accounts, tasks, h, edits, rounds);
    if rounds != [] {
      var it := Round(correct, Apply(edits[0], accounts), h, rounds[0]);
      if it.outcome.Wait? {
        var rest := Loop(correct, it.accounts, tasks, h, edits[1..], rounds[1..]);
        LoopStoreEnded(correct, it.accounts, tasks, h, edits[1..], rounds[1..]);
        LoopWaitStep(correct, accounts, tasks, h, edits, rounds);
        if rest.ended.Some? {
          StoreAfterWaitEnded(correct, accounts, h, edits, rounds, it, r, rest);
        }
      } else {
        LoopFirstRound(correct, accounts, tasks, h, edits, rounds);
        FirstRoundStore(correct, accounts, h, edits, rounds, it, r.accounts);
      }
    }
  }

  /** The step of `LoopStoreRunning` for a first round that waits, stated of
      the two runs as values. */
  lemma StoreAfterWaitRunning(correct: bool, accounts: Accounts, h: Handle, edits: seq<Edit>, rounds: seq<Env>, it: Iteration, r: Run, rest: Run)
    requires |edits| == |rounds| && |rounds| > 1
    requires forall k :: 0 <= k < |rounds| ==> Answers(rounds[k])
    requires it == Round(correct, Apply(edits[0], accounts), h, rounds[0])
    requires rest.accounts == Round(correct, StoreBefore(correct, it.accounts, h, edits[1..], rounds[1..], |rounds| - 2), h, rounds[1..][|rounds| - 2]).accounts
    requires r.accounts == rest.accounts
    ensures r.accounts == Round(correct, StoreBefore(correct, accounts, h, edits, rounds, |rounds| - 1), h, rounds[|rounds| - 1]).accounts
  {
    StoreBeforeShift(correct, accounts, h, edits, rounds, |rounds| - 1);
  }

  /** A run in which every round waited leaves the store its last round
      left, that round running on the store it found. */
  lemma {:induction false} LoopStoreRunning(correct: bool, accounts: Accounts, tasks: Tasks, h: Handle, edits: seq<Edit>, rounds: seq<Env>)
    requires |edits| == |rounds|
    requires forall i :: 0 <= i < |rounds| ==> Answers(rounds[i])
    ensures var r := Loop(correct, accounts, tasks, h, edits, rounds);
      r.ended.None? && rounds != [] ==>
        r.accounts == Round(correct, StoreBefore(correct, accounts, h, edits, rounds, |rounds| - 1), h, rounds[|rounds| - 1]).accounts
    decreases |rounds|
  {
    var r := Loop(correct, accounts, tasks, h, edits, rounds);
    if rounds != [] {
      var it := Round(correct, Apply(edits[0], accounts), h, rounds[0]);
      if it.outcome.Wait? {
        var rest := Loop(correct, it.accounts, tasks, h, edits[1..], rounds[1..]);
        LoopWaitStep(correct, accounts, tasks, h, edits, rounds);
        if |rounds| > 1 && rest.ended.None? {
          LoopStoreRunning(correct, it.accounts, tasks, h, edits[1..], rounds[1..]);
          StoreAfterWaitRunning(correct, accounts, h, edits, rounds, it, r, rest);
        } else if |rounds| == 1 {
          assert rest.accounts == it.accounts;
          FirstRoundStore(correct, accounts, h, edits, rounds, it, r.accounts);
        }
      }
    }
  }

  /** A run that ended on an invalid token, in whatever round, leaves the
      store its stopping round found with exactly that setup switched off. */
  lemma LoopTokenSwitchOff(correct: bool, accounts: Accounts, tasks: Tasks, h: Handle, edits: seq<Edit>, rounds: seq<Env>)
    requires |edits| == |rounds|
    requires forall i :: 0 <= i < |rounds| ==> Answers(rounds[i])
    ensures var r := Loop(correct, accounts, tasks, h, edits, rounds);
      r.ended == Some((TokenInvalid, 0)) ==>
        var store := StoreBefore(correct, accounts, h, edits, rounds, |r.waits|);
        && h.user in store && h.name in store[h.user].setups && h.user in r.accounts
        && r.accounts[h.user] == SwitchedOff(store[h.user], h.name)
        && SameExcept(store, r.accounts, h.user)
  {
    var r := Loop(correct, accounts, tasks, h, edits, rounds);
    LoopEndsAtFirstStop(correct, accounts, tasks, h, edits, rounds);
    LoopStoreEnded(correct, accounts, tasks, h, edits, rounds);
    if r.ended == Some((TokenInvalid, 0)) {
      var store := StoreBefore(correct, accounts, h, edits, rounds, |r.waits|);
      var it := Round(correct, store, h, rounds[|r.waits|]);
      assert it.outcome == Stop(TokenInvalid, 0) && r.accounts == it.accounts;
    }
  }

  /** An invalid credential ends the loop after one iteration: nothing is
      sent, no wait is made, the setup is switched off in the store and the
      loop's key leaves the task table. */
  lemma InvalidTokenEndsLoop(correct: bool, accounts: Accounts, tasks: Tasks, h: Handle, edits: seq<Edit>, rounds: seq<Env>)
    requires |edits| == |rounds|
    requires forall i :: 0 <= i < |rounds| ==> Answers(rounds[i])
    requires rounds != [] && rounds[0].fault == NoFault && !rounds[0].tokenOk
    requires IsRunning(Apply(edits[0], accounts), h.user, h.name) && h.snapshot.channel != []
    ensures var r := Loop(correct, accounts, tasks, h, edits, rounds);
      && r.ended == Some((TokenInvalid, 0)) && r.waits == [] && r.deliveries == []
      && r.tasks == tasks - {TaskKey(h.user, h.name)}
      && !IsRunning(r.accounts, h.user, h.name)
  {
    var it := Round(correct, Apply(edits[0], accounts), h, rounds[0]);
    assert it.outcome == Stop(TokenInvalid, 0) && it.delivery.None?;
    LoopFirstRound(correct, accounts, tasks, h, edits, rounds);
  }

  /** A loop notices its flag: if, after the edits before some round, the
      setup is switched off and that round suffers no exception, the loop
      has ended by that round, without sending in it. */
  lemma {:induction false} LoopHonoursStop(correct: bool, accounts: Accounts, tasks: Tasks, h: Handle, edits: seq<Edit>, rounds: seq<Env>, j: nat)
    requires |edits| == |rounds|
    requires forall i :: 0 <= i < |rounds| ==> Answers(rounds[i])
    requires j < |rounds| && rounds[j].fault != Unexpected
    requires forall a: Accounts :: !IsRunning(Apply(edits[j], a), h.user, h.name)
    ensures Loop(correct, accounts, tasks, h, edits, rounds).ended.Some?
    ensures |Loop(correct, accounts, tasks, h, edits, rounds).waits| <= j
    ensures |Loop(correct, accounts, tasks, h, edits, rounds).deliveries| <= j
    decreases j
  {
    var it := Round(correct, Apply(edits[0], accounts), h, rounds[0]);
    if j == 0 {
      assert it.outcome.Stop? && it.delivery.None?;
    } else if it.outcome.Wait? {
      LoopHonoursStop(correct, it.accounts, tasks, h, edits[1..], rounds[1..], j - 1);
    }
  }

  /** A user whose token would start loops: present and not empty. */
  predicate HasToken(a: Account) {
    a.token.Some? && a.token.value != ""
  }

  /** `startup_manager` spawns a loop for setup `name` of `user`. */
  predicate Candidate(accounts: Accounts, user: UserId, name: SetupName) {
    user in accounts && HasToken(accounts[user]) && name in accounts[user].setups && accounts[user].setups[name].running
  }

  /** The keys of the candidates among the given users and, for the user
      `u`, among the setups `names`. */
  function Keys(accounts: Accounts, users: set<UserId>): set<string> {
    set u, n | u in users && u in accounts && n in accounts[u].setups && Candidate(accounts, u, n) :: TaskKey(u, n)
  }

  function UserKeys(accounts: Accounts, u: UserId, names: set<SetupName>): set<string>
    requires u in accounts
  {
    set n | n in names && n in accounts[u].setups && Candidate(accounts, u, n) :: TaskKey(u, n)
  }

  /** `h` is the handle `startup_manager` creates for key `k`. */
  predicate Spawned(accounts: Accounts, k: string, h: Handle) {
    && Candidate(accounts, h.user, h.name)
    && k == TaskKey(h.user, h.name)
    && h.snapshot == accounts[h.user].setups[h.name]
    && h.token == accounts[h.user].token.value
  }

  /** `startup_manager`: one pass over every user (skipping those without a
      token, an empty one included) and every running setup, in dictionary
      order (any order here), spawning a loop under each key that has none.
      Existing loops are kept as they are, so running it again spawns
      nothing. */
  method Rehydrate(accounts: Accounts, tasks: Tasks) returns (result: Tasks)
    ensures forall k :: k in tasks ==> k in result && result[k] == tasks[k]
    ensures result.Keys == tasks.Keys + Keys(accounts, accounts.Keys)
    ensures forall k :: k in result && k !in tasks ==> Spawned(accounts, k, result[k])
    ensures Keys(accounts, accounts.Keys) <= tasks.Keys ==> result == tasks
  {
    result := tasks;
    var todo := accounts.Keys;
    var done: set<UserId> := {};
    while todo != {}
      invariant todo + done == accounts.Keys && todo !! done
      invariant forall k :: k in tasks ==> k in result && result[k] == tasks[k]
      invariant result.Keys == tasks.Keys + Keys(accounts, done)
      invariant forall k :: k in result && k !in tasks ==> Spawned(accounts, k, result[k])
      decreases todo
    {
      var u :| u in todo;
      if HasToken(accounts[u]) {
        result := SpawnUser(accounts, tasks, result, u);
        KeysAddUser(accounts, done, u);
      } else {
        KeysSkipUser(accounts, done, u);
      }
      todo := todo - {u};
      done := done + {u};
    }
    if Keys(accounts, accounts.Keys) <= tasks.Keys {
      assert result.Keys == tasks.Keys;
    }
  }

  /** `startup_manager` with its `try`: `load_config` reads the file, and
      `cfg["accounts"]` names the accounts section; `accounts` is the typed
      reading of that section. An unreadable file, a top level that is not
      an object, or a missing accounts section (the state a dumped
      subscription map leaves) raises before any loop is spawned, and the
      `except` only logs, so the task table is left as it was. */
  method Startup(file: ConfigFile, accounts: Accounts, tasks: Tasks) returns (result: Tasks)
    requires LoadConfig(file).Ok? && "accounts" in LoadConfig(file).value ==>
      accounts.Keys == LoadConfig(file).value["accounts"].fields.Keys
    ensures LoadConfig(file).Err? || "accounts" !in LoadConfig(file).value ==> result == tasks
    ensures file.Unreadable? ==> result == tasks
    ensures LoadConfig(file).Ok? && "accounts" in LoadConfig(file).value ==>
      && (forall k :: k in tasks ==> k in result && result[k] == tasks[k])
      && result.Keys == tasks.Keys + Keys(accounts, accounts.Keys)
      && (forall k :: k in result && k !in tasks ==> Spawned(accounts, k, result[k]))
  {
    var cfg := LoadConfig(file);
    if cfg.Err? || "accounts" !in cfg.value {
      return tasks;
    }
    result := Rehydrate(accounts, tasks);
  }

  /** The inner loop of `startup_manager` for one user with a token: a loop
      is spawned for each running setup whose key has none yet. */
  method SpawnUser(accounts: Accounts, tasks: Tasks, start: Tasks, u: UserId) returns (result: Tasks)
    requires u in accounts && HasToken(accounts[u])
    requires forall k :: k in tasks ==> k in start && start[k] == tasks[k]
    requires forall k :: k in start && k !in tasks ==> Spawned(accounts, k, start[k])
    ensures forall k :: k in tasks ==> k in result && result[k] == tasks[k]
    ensures result.Keys == start.Keys + UserKeys(accounts, u, accounts[u].setups.Keys)
    ensures forall k :: k in result && k !in tasks ==> Spawned(accounts, k, result[k])
  {
    result := start;
    var account := accounts[u];
    var names := account.setups.Keys;
    var seen: set<SetupName> := {};
    while names != {}
      invariant names + seen == account.setups.Keys && names !! seen
      invariant forall k :: k in tasks ==> k in result && result[k] == tasks[k]
      invariant result.Keys == start.Keys + UserKeys(accounts, u, seen)
      invariant forall k :: k in result && k !in tasks ==> Spawned(accounts, k, result[k])
      decreases names
    {
      var n :| n in names;
      var key := TaskKey(u, n);
      if account.setups[n].running && key !in result {
        result := result[key := Handle(u, n, account.setups[n], account.token.value)];
      }
      names := names - {n};
      seen := seen + {n};
    }
  }

  /** Adding a user with a token adds exactly that user's candidate keys. */
  lemma KeysAddUser(accounts: Accounts, done: set<UserId>, u: UserId)
    requires u in accounts && HasToken(accounts[u])
    ensures Keys(accounts, done + {u}) == Keys(accounts, done) + UserKeys(accounts, u, accounts[u].setups.Keys)
  {
  }

  /** Adding a user without a token adds nothing. */
  lemma KeysSkipUser(accounts: Accounts, done: set<UserId>, u: UserId)
    requires u in accounts && !HasToken(accounts[u])
    ensures Keys(accounts, done + {u}) == Keys(accounts, done)
  {
  }
}
