/// The lifecycle of EventService as a state machine over its pending events.
/// The sending coroutine's suspension points become explicit inputs: time
/// passing (its `WaitForSeconds` cooldown), the completion of its web
/// request, and the host's quit signal.  Each input is processed whole, one
/// at a time, as Unity runs them on its single main thread.
module Scheduler {
  import opened Session

  /** The two serialised settings: `backupEachNumberOfEvents` and `cooldownBeforeSend`. */
  datatype Config = Config(backupEvery: int, cooldown: int)

  /**
   * Where the one sending routine is: none (`sendingRoutine == null`);
   * waiting out its cooldown with `remaining` time left; or waiting for its
   * request, which posts `body` and, on success, removes `count` events.
   */
  datatype Phase = Idle | Debouncing(remaining: int) | Sending(count: nat, body: Json)

  /**
   * The service's pending events (`session.events`), its routine, the
   * storage file, and -- not part of the service -- the events the
   * collector has acknowledged, in order.
   */
  datatype State = State(events: seq<EventData>, phase: Phase, disk: Disk, sent: seq<EventData>)

  /** What the service reacts to. */
  datatype Input =
    | Track(e: EventData)       // `TrackEvent(type, data)`
    | Tick(dt: nat)             // time passes; the cooldown may run out
    | SendCompleted(ok: bool)   // the request returns, successfully or not
    | Quit                      // `OnApplicationQuit`, or losing focus on Android

  /** The periodic backup test on the new list length; 0 switches backups off. */
  predicate ShouldBackup(backupEvery: int, count: nat)
  {
    backupEvery != 0 && count % backupEvery == 0
  }

  /** `StoreSession`: overwrite the file with the snapshot of the pending events. */
  function Store(st: State): (r: State)
    ensures Restore(r.disk) == st.events
    ensures r.(disk := st.disk) == st
  {
    st.(disk := File(Snapshot(st.events)))
  }

  /** `CheckForUnsentEvents`: arm a routine only when there are events and none is running. */
  function CheckForUnsent(cfg: Config, st: State): (r: State)
    ensures r.(phase := st.phase) == st
    ensures r.phase.Idle? <==> st.phase.Idle? && st.events == []
    ensures !st.phase.Idle? ==> r.phase == st.phase
    ensures r.phase != st.phase ==> r.phase == Debouncing(cfg.cooldown)
  {
    if |st.events| > 0 && st.phase.Idle? then st.(phase := Debouncing(cfg.cooldown)) else st
  }

  /** `TrackEvent`: append, maybe back up, then check for unsent events. */
  function TrackStep(cfg: Config, st: State, e: EventData): (r: State)
    ensures r.events == st.events + [e] && r.sent == st.sent
    ensures ShouldBackup(cfg.backupEvery, |r.events|) ==> Restore(r.disk) == r.events
    ensures !ShouldBackup(cfg.backupEvery, |r.events|) ==> r.disk == st.disk
    ensures r.phase == if st.phase.Idle? then Debouncing(cfg.cooldown) else st.phase
  {
    var appended := st.(events := st.events + [e]);
    var backedUp := if ShouldBackup(cfg.backupEvery, |appended.events|) then Store(appended) else appended;
    CheckForUnsent(cfg, backedUp)
  }

  /**
   * Time passes.  A routine waiting out its cooldown resumes once the
   * cooldown has run out: it takes the number of events and their
   * serialisation together, with no suspension between, and posts them.
   */
  function TickStep(st: State, dt: nat): (r: State)
    ensures r.(phase := st.phase) == st
    ensures !st.phase.Debouncing? ==> r == st
    ensures st.phase.Debouncing? && dt < st.phase.remaining ==> r.phase == Debouncing(st.phase.remaining - dt)
    ensures st.phase.Debouncing? && dt >= st.phase.remaining ==>
              r.phase.Sending? && r.phase.count == |st.events| && Load(r.phase.body) == st.events
  {
    match st.phase
    case Debouncing(remaining) =>
      if remaining - dt <= 0 then st.(phase := Sending(|st.events|, Snapshot(st.events)))
      else st.(phase := Debouncing(remaining - dt))
    case _ => st
  }

  /**
   * The request returns.  On success exactly the first `count` events are
   * removed (`RemoveRange(0, count)`) and the collector has what was posted;
   * on failure nothing changes.  Either way the session is stored, the
   * routine ends, and a new one is armed if events remain.
   */
  function CompleteStep(cfg: Config, st: State, ok: bool): (r: State)
    requires st.phase.Sending? && st.phase.count <= |st.events|
    ensures r.events == if ok then st.events[st.phase.count..] else st.events
    ensures r.sent == if ok then st.sent + Load(st.phase.body) else st.sent
    ensures Restore(r.disk) == r.events
    ensures r.phase.Idle? <==> r.events == []
    ensures !r.phase.Idle? ==> r.phase == Debouncing(cfg.cooldown)
  {
    var Sending(count, body) := st.phase;
    var after := if ok then st.(events := st.events[count..], sent := st.sent + Load(body)) else st;
    CheckForUnsent(cfg, Store(after).(phase := Idle))
  }

  /** `Start` / `RestoreSession`: read the file; a non-empty session arms the routine. */
  function StartState(cfg: Config, disk: Disk): (r: State)
    ensures r.events == Restore(disk) && r.disk == disk && r.sent == []
    ensures r.phase.Idle? <==> r.events == []
    ensures !r.phase.Idle? ==> r.phase == Debouncing(cfg.cooldown)
  {
    match disk
    case NoFile => State([], Idle, disk, [])
    case File(text) => CheckForUnsent(cfg, State(Load(text), Idle, disk, []))
  }

  /** One input.  A completion can only arrive while a request is in flight. */
  function Next(cfg: Config, st: State, i: Input): State
  {
    match i
    case Track(e) => TrackStep(cfg, st, e)
    case Tick(dt) => TickStep(st, dt)
    case SendCompleted(ok) =>
      if st.phase.Sending? && st.phase.count <= |st.events| then CompleteStep(cfg, st, ok) else st
    case Quit => Store(st)
  }

  /** A run of inputs, in order. */
  function Run(cfg: Config, st: State, inputs: seq<Input>): State
    decreases |inputs|
  {
    if inputs == [] then st else Run(cfg, Next(cfg, st, inputs[0]), inputs[1..])
  }

  /** The events a run of inputs tracks, in order. */
  function Tracked(inputs: seq<Input>): seq<EventData>
    decreases |inputs|
  {
    if inputs == [] then []
    else TrackedBy(inputs[0]) + Tracked(inputs[1..])
  }

  /** The time a run of inputs lets pass. */
  function Elapsed(inputs: seq<Input>): nat
    decreases |inputs|
  {
    if inputs == [] then 0
    else (if inputs[0].Tick? then inputs[0].dt else 0) + Elapsed(inputs[1..])
  }

  /**
   * The file is never more than `backupEvery - 1` events behind: no
   * multiple of `backupEvery` lies between the stored length and the
   * current length.
   */
  predicate BackupWindow(backupEvery: int, stored: nat, current: nat)
  {
    backupEvery != 0 ==> current / Abs(backupEvery) == stored / Abs(backupEvery)
  }

  function Abs(n: int): nat
  {
    if n < 0 then -n else n
  }

  /** On a count, the backup test only depends on the size of the period. */
  lemma BackupTestBySize(count: nat, backupEvery: int)
    requires backupEvery != 0
    ensures ShouldBackup(backupEvery, count) <==> count % Abs(backupEvery) == 0
  {
    if backupEvery < 0 {
      NegativeDivisor(count, backupEvery);
    }
  }

  lemma NegativeDivisor(count: nat, n: int)
    requires n < 0
    ensures count % n == count % (-n)
  {
  }

  /**
   * What holds between inputs: the routine is idle exactly when nothing is
   * pending; a cooldown never has more than the configured time left; an
   * in-flight request posts exactly a non-empty prefix of the pending
   * events; and the file holds a prefix of them, at most one backup period
   * behind.
   */
  ghost predicate Inv(cfg: Config, st: State)
  {
    && (st.phase.Idle? <==> st.events == [])
    && (st.phase.Debouncing? ==> st.phase.remaining <= cfg.cooldown)
    && (st.phase.Sending? ==>
          1 <= st.phase.count <= |st.events| && st.phase.body == Snapshot(st.events[..st.phase.count]))
    && Restore(st.disk) <= st.events
    && BackupWindow(cfg.backupEvery, |Restore(st.disk)|, |st.events|)
  }

  // ---------------------------------------------------------------------
  // The invariant
  // ---------------------------------------------------------------------

  /** Division by a positive divisor has one quotient and remainder. */
  lemma DivModUnique(a: int, n: int, q: int, r: int)
    requires n > 0 && 0 <= r < n && a == n * q + r
    ensures a / n == q && a % n == r
  {
    var q0, r0 := a / n, a % n;
    assert a == n * q0 + r0 && 0 <= r0 < n;
    if q0 < q {
      MulAtLeast(n, q - q0);
    } else if q < q0 {
      MulAtLeast(n, q0 - q);
    }
  }

  lemma {:induction false} MulAtLeast(n: nat, x: int)
    requires x >= 1
    ensures n * x >= n
    decreases x
  {
    if x > 1 {
      MulAtLeast(n, x - 1);
      assert n * x == n * (x - 1) + n;
    }
  }

  /** Adding one that does not reach a multiple keeps the quotient. */
  lemma DivStays(c: nat, n: int)
    requires n > 0 && (c + 1) % n != 0
    ensures (c + 1) / n == c / n
  {
    var q, r := c / n, c % n;
    assert c == n * q + r && 0 <= r < n;
    if r + 1 == n {
      DivModUnique(c + 1, n, q + 1, 0);
    } else {
      DivModUnique(c + 1, n, q, r + 1);
    }
  }

  lemma StartEstablishesInv(cfg: Config, disk: Disk)
    ensures Inv(cfg, StartState(cfg, disk))
  {
  }

  lemma TrackPreservesInv(cfg: Config, st: State, e: EventData)
    requires Inv(cfg, st)
    ensures Inv(cfg, TrackStep(cfg, st, e))
  {
    var r := TrackStep(cfg, st, e);
    if st.phase.Sending? {
      assert r.events[..st.phase.count] == st.events[..st.phase.count];
    }
    if !ShouldBackup(cfg.backupEvery, |r.events|) {
      assert Restore(r.disk) <= r.events;
      if cfg.backupEvery != 0 {
        BackupTestBySize(|r.events|, cfg.backupEvery);
        DivStays(|st.events|, Abs(cfg.backupEvery));
      }
    }
  }

  lemma TickPreservesInv(cfg: Config, st: State, dt: nat)
    requires Inv(cfg, st)
    ensures Inv(cfg, TickStep(st, dt))
  {
  }

  lemma CompletePreservesInv(cfg: Config, st: State, ok: bool)
    requires Inv(cfg, st) && st.phase.Sending?
    ensures Inv(cfg, CompleteStep(cfg, st, ok))
  {
  }

  lemma NextPreservesInv(cfg: Config, st: State, i: Input)
    requires Inv(cfg, st)
    ensures Inv(cfg, Next(cfg, st, i))
  {
    match i
    case Track(e) => TrackPreservesInv(cfg, st, e);
    case Tick(dt) => TickPreservesInv(cfg, st, dt);
    case SendCompleted(ok) => if st.phase.Sending? { CompletePreservesInv(cfg, st, ok); }
    case Quit =>
  }

  lemma {:induction false} RunPreservesInv(cfg: Config, st: State, inputs: seq<Input>)
    requires Inv(cfg, st)
    ensures Inv(cfg, Run(cfg, st, inputs))
    decreases |inputs|
  {
    if inputs != [] {
      NextPreservesInv(cfg, st, inputs[0]);
      RunPreservesInv(cfg, Next(cfg, st, inputs[0]), inputs[1..]);
    }
  }

  // ---------------------------------------------------------------------
  // Properties of runs
  // ---------------------------------------------------------------------

  /** The events one input tracks. */
  function TrackedBy(i: Input): seq<EventData>
  {
    if i.Track? then [i.e] else []
  }

  lemma NextNoLoss(cfg: Config, st: State, i: Input)
    requires Inv(cfg, st)
    ensures Next(cfg, st, i).sent + Next(cfg, st, i).events == st.sent + st.events + TrackedBy(i)
  {
  }

  /**
   * No loss, no duplication: every event ever pending is either still
   * pending or acknowledged by the collector, once, in tracking order.
   */
  lemma {:induction false} NoLoss(cfg: Config, st: State, inputs: seq<Input>)
    requires Inv(cfg, st)
    ensures Run(cfg, st, inputs).sent + Run(cfg, st, inputs).events == st.sent + st.events + Tracked(inputs)
    decreases |inputs|
  {
    if inputs != [] {
      var st' := Next(cfg, st, inputs[0]);
      var last := Run(cfg, st', inputs[1..]);
      assert Run(cfg, st, inputs) == last;
      assert Tracked(inputs) == TrackedBy(inputs[0]) + Tracked(inputs[1..]);
      assert last.sent + last.events == st'.sent + st'.events + Tracked(inputs[1..]) by {
        NextPreservesInv(cfg, st, inputs[0]);
        NoLoss(cfg, st', inputs[1..]);
      }
      assert st'.sent + st'.events == st.sent + st.events + TrackedBy(inputs[0]) by {
        NextNoLoss(cfg, st, inputs[0]);
      }
    }
  }

  /**
   * The cooldown is a fixed window: whatever is tracked or stored meanwhile,
   * the routine posts exactly when the time passed since it was armed
   * reaches the cooldown, and not before.
   */
  lemma {:induction false} FixedCooldown(cfg: Config, st: State, inputs: seq<Input>)
    requires Inv(cfg, st) && st.phase.Debouncing?
    requires forall k :: 0 <= k < |inputs| ==> !inputs[k].SendCompleted?
    ensures Elapsed(inputs) < st.phase.remaining ==> Run(cfg, st, inputs).phase == Debouncing(st.phase.remaining - Elapsed(inputs))
    ensures Elapsed(inputs) >= st.phase.remaining && Elapsed(inputs) > 0 ==> Run(cfg, st, inputs).phase.Sending?
    decreases |inputs|
  {
    if inputs != [] {
      var i, st' := inputs[0], Next(cfg, st, inputs[0]);
      var d := if i.Tick? then i.dt else 0;
      assert Elapsed(inputs) == d + Elapsed(inputs[1..]);
      assert !i.SendCompleted?;
      assert Run(cfg, st, inputs) == Run(cfg, st', inputs[1..]);
      NextPreservesInv(cfg, st, i);
      if i.Tick? && d >= st.phase.remaining {
        InFlightUntilCompleted(cfg, st', inputs[1..]);
      } else {
        assert st'.phase == Debouncing(st.phase.remaining - d);
        FixedCooldown(cfg, st', inputs[1..]);
      }
    }
  }

  /**
   * Single flight: while a request is in flight, nothing but its completion
   * touches the routine -- no second routine starts and the batch being
   * posted does not change.
   */
  lemma {:induction false} InFlightUntilCompleted(cfg: Config, st: State, inputs: seq<Input>)
    requires Inv(cfg, st) && st.phase.Sending?
    requires forall k :: 0 <= k < |inputs| ==> !inputs[k].SendCompleted?
    ensures Run(cfg, st, inputs).phase == st.phase
    decreases |inputs|
  {
    if inputs != [] {
      NextPreservesInv(cfg, st, inputs[0]);
      InFlightUntilCompleted(cfg, Next(cfg, st, inputs[0]), inputs[1..]);
    }
  }

  /** Tracking only: events pile up at the end and the routine is not restarted. */
  lemma {:induction false} TracksOnlyAppend(cfg: Config, st: State, es: seq<EventData>, inputs: seq<Input>)
    requires Inv(cfg, st) && !st.phase.Idle?
    requires |inputs| == |es| && forall k :: 0 <= k < |inputs| ==> inputs[k] == Track(es[k])
    ensures Run(cfg, st, inputs).events == st.events + es
    ensures Run(cfg, st, inputs).phase == st.phase && Run(cfg, st, inputs).sent == st.sent
    decreases |inputs|
  {
    if inputs != [] {
      var st' := Next(cfg, st, inputs[0]);
      assert Run(cfg, st, inputs) == Run(cfg, st', inputs[1..]);
      TrackPreservesInv(cfg, st, es[0]);
      TracksOnlyAppend(cfg, st', es[1..], inputs[1..]);
      assert st.events + [es[0]] + es[1..] == st.events + es;
    }
  }

  /**
   * Prefix-only removal: events tracked while a request is in flight stay,
   * in order, behind what remains once the posted prefix is removed; and
   * the collector receives exactly that prefix.
   */
  lemma SendRemovesPostedPrefix(cfg: Config, st: State, es: seq<EventData>, inputs: seq<Input>)
    requires Inv(cfg, st) && st.phase.Sending?
    requires |inputs| == |es| && forall k :: 0 <= k < |inputs| ==> inputs[k] == Track(es[k])
    ensures Run(cfg, st, inputs + [SendCompleted(true)]).events == st.events[st.phase.count..] + es
    ensures Run(cfg, st, inputs + [SendCompleted(true)]).sent == st.sent + st.events[..st.phase.count]
  {
    var count := st.phase.count;
    var mid := Run(cfg, st, inputs);
    TracksOnlyAppend(cfg, st, es, inputs);
    RunConcat(cfg, st, inputs, [SendCompleted(true)]);
    RunOne(cfg, mid, SendCompleted(true));
    assert mid.phase == st.phase && mid.sent == st.sent;
    assert (st.events + es)[count..] == st.events[count..] + es;
    assert Load(st.phase.body) == st.events[..count];
  }

  lemma RunOne(cfg: Config, st: State, i: Input)
    ensures Run(cfg, st, [i]) == Next(cfg, st, i)
  {
  }

  lemma {:induction false} RunConcat(cfg: Config, st: State, xs: seq<Input>, ys: seq<Input>)
    ensures Run(cfg, st, xs + ys) == Run(cfg, Run(cfg, st, xs), ys)
    decreases |xs|
  {
    if xs == [] {
      assert xs + ys == ys;
    } else {
      assert (xs + ys)[0] == xs[0] && (xs + ys)[1..] == xs[1..] + ys;
      RunConcat(cfg, Next(cfg, st, xs[0]), xs[1..], ys);
    }
  }

  /**
   * A failed send keeps every pending event, stores them, and re-arms the
   * full cooldown; once it has passed, the next request posts all of them
   * again, in the same order.
   */
  lemma FailedSendIsRetried(cfg: Config, st: State, dt: nat)
    requires Inv(cfg, st) && st.phase.Sending? && dt >= cfg.cooldown
    ensures Next(cfg, st, SendCompleted(false)).events == st.events
    ensures Restore(Next(cfg, st, SendCompleted(false)).disk) == st.events
    ensures Next(cfg, st, SendCompleted(false)).phase == Debouncing(cfg.cooldown)
    ensures Run(cfg, st, [SendCompleted(false), Tick(dt)]).phase == Sending(|st.events|, Snapshot(st.events))
  {
    var failed := Next(cfg, st, SendCompleted(false));
    RunConcat(cfg, st, [SendCompleted(false)], [Tick(dt)]);
    assert [SendCompleted(false)] + [Tick(dt)] == [SendCompleted(false), Tick(dt)];
    RunOne(cfg, st, SendCompleted(false));
    RunOne(cfg, failed, Tick(dt));
  }

  /** Quit stores the pending events and leaves the routine alone. */
  lemma QuitOnlyStores(cfg: Config, st: State)
    requires Inv(cfg, st)
    ensures Next(cfg, st, Quit).events == st.events
    ensures Next(cfg, st, Quit).phase == st.phase
    ensures Restore(Next(cfg, st, Quit).disk) == st.events
  {
  }

  /**
   * No loss across a restart: quitting and starting again restores exactly
   * the pending events, in order, and arms a routine iff there are any.
   */
  lemma RestartRestoresPending(cfg: Config, st: State)
    requires Inv(cfg, st)
    ensures StartState(cfg, Next(cfg, st, Quit).disk).events == st.events
    ensures StartState(cfg, Next(cfg, st, Quit).disk).phase.Idle? <==> st.events == []
  {
  }

  /**
   * A crash between inputs, when every store has completed: restarting
   * from the file as it is restores a prefix of the pending events, missing
   * fewer than `backupEvery` of the most recent ones.
   */
  lemma CrashLosesLessThanBackupPeriod(cfg: Config, st: State)
    requires Inv(cfg, st) && cfg.backupEvery != 0
    ensures StartState(cfg, st.disk).events <= st.events
    ensures |st.events| - |StartState(cfg, st.disk).events| < Abs(cfg.backupEvery)
  {
  }
}
