/**
 * What the injection processor promises, proved about the reference semantics in
 * InjectSpec (and so, through the method contracts of InjectProcessor, about the
 * class). The outcomes are stated field by field and effect by effect, without
 * going through the functions' own helpers.
 */
module InjectProperties {
  import opened Wire
  import opened MouseFrames
  import opened MousePayloadProvider
  import opened InjectSpec

  /** The effects the provider reset contributes: one reset call iff there is a provider. */
  function ResetEffects(c: Ctx): seq<Effect>
  {
    if c.provider == NoProvider then [] else [ProviderReset]
  }

  /** What a provider reset does: a keyboard provider is rewound, the mouse count pointer becomes NULL. */
  predicate ProviderRewound(c: Ctx, r: Ctx)
  {
    match c.provider
    case NoProvider => r.provider == NoProvider && r.mouse == c.mouse
    case KeyProvider(frames, _) => r.provider == KeyProvider(frames, 0) && r.mouse == c.mouse
    case MouseSlot => r.provider == MouseSlot && r.mouse == c.mouse.(count := NULL)
  }

  /** The mode switches an after-inject option performs; ACTIVE also performs PASSIVE. */
  function ModeEffects(action: AfterInject, address: seq<byte>): seq<Effect>
  {
    match action
    case Continue => []
    case SwitchDiscovery => [EnterDiscovery]
    case SwitchActiveEnumeration => [EnterActiveEnum(address), EnterPassiveEnum(address)]
    case SwitchPassiveEnumeration => [EnterPassiveEnum(address)]
  }

  /** The effect log ends with an armed timer. */
  predicate TimerArmed(c: Ctx)
  {
    |c.effects| > 0 && c.effects[|c.effects| - 1].TimerStart?
  }

  /** How a dispatch round may end: working with the timer armed, or idle with execution stopped. */
  predicate Settled(c: Ctx)
  {
    (c.state == Working && TimerArmed(c)) || (c.state == Idle && !c.execute)
  }

  /** Resetting the provider depends only on the provider and the mouse context, and adds one effect at most. */
  lemma ResetProviderOnly(c: Ctx, d: Ctx)
    requires d.provider == c.provider && d.mouse == c.mouse
    ensures ResetProvider(d) == d.(provider := ResetProvider(c).provider, mouse := ResetProvider(c).mouse,
                                   effects := d.effects + ResetEffects(c))
    ensures ProviderRewound(c, ResetProvider(c))
  {
  }

  // ---------------------------------------------------------------------------
  // transfer_state

  /** A transfer to the current state changes nothing. */
  lemma TransferToSameStateIsNoOp(c: Ctx, env: Env)
    requires WellFormed(c)
    ensures TransferState(c, env, c.state) == c
  {
  }

  /** Entering IDLE stops the timer, zeroes the counter, resets the provider and pauses execution; no task is read. */
  lemma EnterIdle(c: Ctx, env: Env)
    requires WellFormed(c) && c.state != Idle
    ensures var r := TransferState(c, env, Idle);
      && r.state == Idle && !r.execute && r.retransmitCounter == 0
      && ProviderRewound(c, r)
      && r.effects == c.effects + [TimerStop] + ResetEffects(c)
      && r.tasks == c.tasks && r.cursor == c.cursor && r.currentTask == c.currentTask
      && r.payload == c.payload
  {
  }

  /**
   * TASK_SUCCEEDED is never stored: the context returns to IDLE with the timer
   * stopped, the counter zeroed and the provider reset, and the next task is read
   * iff `execute` is set.
   */
  lemma TaskSucceededReturnsToIdle(c: Ctx, env: Env)
    requires WellFormed(c) && c.state != TaskSucceeded
    ensures var r := TransferState(c, env, TaskSucceeded);
      var idle := c.(state := Idle, retransmitCounter := 0, provider := ResetProvider(c).provider,
                     mouse := ResetProvider(c).mouse, effects := c.effects + [TimerStop] + ResetEffects(c));
      && ProviderRewound(c, idle)
      && (c.execute ==> r == RunNextTask(idle, env))
      && (!c.execute ==> r == idle)
      && r.state != TaskSucceeded
  {
    var idle := c.(state := Idle, retransmitCounter := 0, provider := ResetProvider(c).provider,
                   mouse := ResetProvider(c).mouse, effects := c.effects + [TimerStop] + ResetEffects(c));
    ResetProviderOnly(c, c.(effects := c.effects + [TimerStop], retransmitCounter := 0, state := Idle));
    if c.execute {
      RunNextTaskSettles(idle, env);
    }
  }

  /**
   * FAILED ends in IDLE with execution off, the queue rewound, the provider reset
   * once and the on-fail mode switch performed; no task is read.
   */
  lemma FailedAborts(c: Ctx, env: Env)
    requires WellFormed(c) && c.state != Failed
    ensures var r := TransferState(c, env, Failed);
      && r.state == Idle && !r.execute && r.cursor == 0 && r.tasks == c.tasks
      && r.retransmitCounter == 0 && ProviderRewound(c, r)
      && r.currentTask == c.currentTask && r.payload == c.payload
      && r.effects == c.effects + [TimerStop] + ResetEffects(c) + ModeEffects(env.injectOnFail, c.rfAddress)
  {
  }

  /**
   * SCRIPT_SUCCEEDED ends in IDLE with the queue flushed and the on-success mode
   * switch performed; timer, counter, provider and payload are left alone.
   */
  lemma ScriptSucceededFlushes(c: Ctx, env: Env)
    requires WellFormed(c) && c.state != ScriptSucceeded
    ensures var r := TransferState(c, env, ScriptSucceeded);
      && r.state == Idle && r.tasks == [] && r.cursor == 0 && r.execute == c.execute
      && r.retransmitCounter == c.retransmitCounter && r.provider == c.provider && r.mouse == c.mouse
      && r.payload == c.payload
      && r.effects == c.effects + ModeEffects(env.injectOnSuccess, c.rfAddress)
  {
  }

  /** The ACTIVE_ENUMERATION option falls through: passive enumeration of the same address follows. */
  lemma ActiveEnumerationFallsThrough(c: Ctx)
    ensures var r := AfterInjectAction(c, SwitchActiveEnumeration);
      && |r.effects| == |c.effects| + 2
      && r.effects[|c.effects|] == EnterActiveEnum(c.rfAddress)
      && r.effects[|c.effects| + 1] == EnterPassiveEnum(c.rfAddress)
  {
  }

  // ---------------------------------------------------------------------------
  // run_next_task and the starters

  /** Nothing is read unless the context is IDLE. */
  lemma RunNextTaskNeedsIdle(c: Ctx, env: Env)
    requires WellFormed(c) && c.state != Idle
    ensures RunNextTask(c, env) == c
  {
  }

  /** An exhausted queue: rewind, execution off, then SCRIPT_SUCCEEDED (the queue is flushed). */
  lemma ExhaustedQueueSucceeds(c: Ctx, env: Env)
    requires WellFormed(c) && c.state == Idle && c.cursor == |c.tasks|
    ensures var r := RunNextTask(c, env);
      && r.state == Idle && !r.execute && r.tasks == [] && r.cursor == 0
      && r.provider == c.provider && r.mouse == c.mouse && r.retransmitCounter == c.retransmitCounter
      && r.effects == c.effects + ModeEffects(env.injectOnSuccess, c.rfAddress)
  {
  }

  /** An unknown task type is read and the script fails. */
  lemma UnknownTaskFails(c: Ctx, env: Env)
    requires WellFormed(c) && c.state == Idle && c.cursor < |c.tasks| && c.tasks[c.cursor].UnknownTask?
    ensures var r := RunNextTask(c, env);
      && r.state == Idle && !r.execute && r.cursor == 0 && r.tasks == c.tasks
      && r.currentTask == c.tasks[c.cursor]
      && r.effects == c.effects + [TimerStop] + ResetEffects(c) + ModeEffects(env.injectOnFail, c.rfAddress)
  {
    var c1 := c.(currentTask := c.tasks[c.cursor], cursor := c.cursor + 1);
    assert RunNextTask(c, env) == TransferState(c1, env, Failed);
    FailedAborts(c1, env);
  }

  /** A zero delay drops the provider and goes straight to TASK_SUCCEEDED, which reads on if `execute` is set. */
  lemma ZeroDelaySucceedsAtOnce(c: Ctx, env: Env)
    requires WellFormed(c) && c.state == Idle && c.cursor < |c.tasks| && c.tasks[c.cursor] == Delay(0)
    ensures var r := RunNextTask(c, env);
      var idle := c.(currentTask := Delay(0), cursor := c.cursor + 1, provider := NoProvider,
                     retransmitCounter := 0, effects := c.effects + [TimerStop]);
      && (c.execute ==> r == RunNextTask(idle, env))
      && (!c.execute ==> r == idle)
  {
    var c1 := c.(currentTask := Delay(0), cursor := c.cursor + 1);
    assert RunNextTask(c, env) == StartDelay(c1, env, 0);
    assert StartDelay(c1, env, 0) == TransferState(c1.(provider := NoProvider), env, TaskSucceeded);
  }

  /** A non-zero delay: WORKING with no provider and the timer armed for the delay. */
  lemma DelayArmsTimer(c: Ctx, env: Env, ms: uint32)
    requires WellFormed(c) && c.state == Idle && ms > 0
    ensures var r := StartDelay(c, env, ms);
      && r.state == Working && r.provider == NoProvider && r.execute == c.execute
      && r.cursor == c.cursor && r.payload == c.payload
      && r.effects == c.effects + [TimerStart(ms)]
  {
  }

  /**
   * A keyboard task whose provider yields a first frame ends in WORKING with that
   * frame staged and the timer armed at the tx delay; one that yields none fails.
   */
  lemma KeyTaskStarts(c: Ctx, env: Env, frames: seq<Payload>)
    requires WellFormed(c) && c.state == Idle
    ensures var r := StartKeys(c, env, frames);
      && (|frames| > 0 ==>
            && r.state == Working && r.payload == frames[0] && r.provider == KeyProvider(frames, 1)
            && r.execute == c.execute && r.cursor == c.cursor
            && r.effects == c.effects + [TimerStart(c.txDelayMs)])
      && (|frames| == 0 ==>
            && r.state == Idle && !r.execute && r.cursor == 0 && r.provider == KeyProvider(frames, 0)
            && r.effects == c.effects + [TimerStop, ProviderReset] + ModeEffects(env.injectOnFail, c.rfAddress))
  {
    var f := ProviderGetNext(c.(provider := KeyProvider(frames, 0)));
    assert StartKeys(c, env, frames) == StartPrimed(f, env);
    if |frames| > 0 {
      assert f.ok && f.ctx == c.(provider := KeyProvider(frames, 1), payload := frames[0]);
      assert TransferState(f.ctx, env, Working) == f.ctx.(state := Working);
    } else {
      assert !f.ok;
      FailedAborts(f.ctx, env);
    }
  }

  /**
   * A mouse task: an unmapped report fails, resetting whatever provider the previous
   * task left in place; a NULL count pointer fails at priming;
   * otherwise the first frame of the encoding the work mode selects is staged, in
   * WORKING, with the timer armed.
   */
  lemma MouseTaskStarts(c: Ctx, env: Env, m: Option<MouseMap>, count: nat)
    requires WellFormed(c) && c.state == Idle
    ensures var r := StartMouse(c, env, m, count);
      && (m.None? ==> r.state == Idle && !r.execute && r.cursor == 0 && ProviderRewound(c, r))
      && (m.Some? && count == NULL ==> r.state == Idle && !r.execute && r.cursor == 0 && r.provider == MouseSlot)
      && (m.Some? && count != NULL ==>
            && r.state == Working && r.provider == MouseSlot
            && r.payload == WriteFrame(c.payload, EncodeFrame(m.value, env.workmode != WorkmodeUnifying))
            && r.mouse.keyComboTransmitted && !r.mouse.releaseTransmitted && r.mouse.count == count - 1
            && r.effects == c.effects + [TimerStart(c.txDelayMs)])
  {
    if m.None? {
      FailedAborts(c, env);
    } else {
      var isLightspeed := env.workmode != WorkmodeUnifying;
      var c1 := c.(provider := MouseSlot, mouse := NewCtx(c.usbInject, m.value, count, isLightspeed));
      var f := ProviderGetNext(c1);
      assert StartMouse(c, env, m, count) == StartPrimed(f, env);
      var s := NextStep(c1.mouse, c1.payload);
      assert s == InjectStep(c1.mouse.(keyComboTransmitted := true), c.payload, isLightspeed);
      assert f == Fetch(c1.(mouse := s.ctx, payload := s.payload), s.produced);
      if count == NULL {
        assert !f.ok;
        FailedAborts(f.ctx, env);
      } else {
        assert f.ok;
        assert TransferState(f.ctx, env, Working) == f.ctx.(state := Working);
      }
    }
  }

  /** A keyboard task leaves the context settled. */
  lemma KeyTaskSettles(c: Ctx, env: Env, frames: seq<Payload>)
    requires WellFormed(c) && c.state == Idle
    ensures Settled(StartKeys(c, env, frames))
  {
    KeyTaskStarts(c, env, frames);
  }

  /** A mouse task leaves the context settled. */
  lemma MouseTaskSettles(c: Ctx, env: Env, m: Option<MouseMap>, count: nat)
    requires WellFormed(c) && c.state == Idle
    ensures Settled(StartMouse(c, env, m, count))
  {
    MouseTaskStarts(c, env, m, count);
  }

  /**
   * From IDLE, a dispatch round either leaves the processor WORKING with the timer
   * armed, or IDLE with execution stopped: it never stalls in IDLE while `execute`
   * is still set. The proof follows the chain of zero delays.
   */
  lemma {:induction false} RunNextTaskSettles(c: Ctx, env: Env)
    requires WellFormed(c) && c.state == Idle
    ensures Settled(RunNextTask(c, env))
    decreases Pending(c)
  {
    if c.cursor == |c.tasks| {
      ExhaustedQueueSucceeds(c, env);
    } else {
      var c1 := c.(currentTask := c.tasks[c.cursor], cursor := c.cursor + 1);
      match c1.currentTask
      case Delay(ms) =>
        if ms == 0 {
          ZeroDelaySucceedsAtOnce(c, env);
          if c.execute {
            var idle := c1.(provider := NoProvider, retransmitCounter := 0, effects := c.effects + [TimerStop]);
            RunNextTaskSettles(idle, env);
          }
        } else {
          DelayArmsTimer(c1, env, ms);
        }
      case PressKeys(frames) => KeyTaskSettles(c1, env, frames);
      case TypeString(frames) => KeyTaskSettles(c1, env, frames);
      case TypeAltString(frames) => KeyTaskSettles(c1, env, frames);
      case MouseReport(m, count) => MouseTaskSettles(c1, env, m, count);
      case UnknownTask(_) => UnknownTaskFails(c, env);
    }
  }

  /** The effect log of `n` timer stops. */
  function TimerStops(n: nat): seq<Effect>
  {
    seq(n, _ => TimerStop)
  }

  /** A queue of zero delays runs to its end in one round: one timer stop per task, then the script succeeds. */
  lemma {:induction false} ZeroDelayScriptSucceeds(c: Ctx, env: Env)
    requires WellFormed(c) && c.state == Idle && c.execute
    requires forall i :: c.cursor <= i < |c.tasks| ==> c.tasks[i] == Delay(0)
    ensures var r := RunNextTask(c, env);
      && r.state == Idle && !r.execute && r.tasks == [] && r.cursor == 0
      && r.effects == c.effects + TimerStops(|c.tasks| - c.cursor) + ModeEffects(env.injectOnSuccess, c.rfAddress)
    decreases |c.tasks| - c.cursor
  {
    if c.cursor < |c.tasks| {
      var c2 := c.(currentTask := Delay(0), cursor := c.cursor + 1, provider := NoProvider,
                   retransmitCounter := 0, effects := c.effects + [TimerStop]);
      ZeroDelaySucceedsAtOnce(c, env);
      ZeroDelayScriptSucceeds(c2, env);
      assert TimerStops(|c.tasks| - c.cursor) == [TimerStop] + TimerStops(|c2.tasks| - c2.cursor);
    } else {
      assert TimerStops(0) == [];
      ExhaustedQueueSucceeds(c, env);
    }
  }

  // ---------------------------------------------------------------------------
  // Timer handler

  /** The timer acts only when WORKING with execution enabled. */
  lemma TimerIgnoredUnlessWorking(c: Ctx, env: Env, esbWriteOk: bool)
    requires WellFormed(c) && !(c.state == Working && c.execute)
    ensures TimerHandler(c, env, esbWriteOk) == c
  {
  }

  /** The end of a delay reports TASK_SUCCEEDED, after which the round settles. */
  lemma TimerEndsDelay(c: Ctx, env: Env, esbWriteOk: bool)
    requires WellFormed(c) && c.state == Working && c.execute && c.currentTask.Delay?
    ensures var r := TimerHandler(c, env, esbWriteOk);
      && r == TransferState(c, env, TaskSucceeded)
      && Settled(r) && r.retransmitCounter == 0
  {
    TaskSucceededReturnsToIdle(c, env);
    var idle := c.(state := Idle, retransmitCounter := 0, provider := ResetProvider(c).provider,
                   mouse := ResetProvider(c).mouse, effects := c.effects + [TimerStop] + ResetEffects(c));
    RunNextTaskSettles(idle, env);
  }

  /** The checksum is applied only on the radio path; a USB write sends the staged data as it is. */
  lemma ChecksumOnlyOnRadio(c: Ctx, env: Env, esbWriteOk: bool)
    requires WellFormed(c) && c.state == Working && c.execute
    requires c.currentTask.PressKeys? || c.currentTask.TypeString? || c.currentTask.TypeAltString? || c.currentTask.MouseReport?
    ensures var r := TimerHandler(c, env, esbWriteOk);
      && (c.usbInject ==>
            && r.payload == c.payload && r.state == c.state
            && r.effects == c.effects + [if c.currentTask.MouseReport? then UsbMouseWrite(c.payload.data) else UsbKeyboardWrite(c.payload.data)])
      && (!c.usbInject ==>
            var sent := c.payload.(data := env.checksum(c.payload.data, c.payload.length));
            r.payload == sent && |r.effects| > |c.effects| && r.effects[|c.effects|] == EsbWrite(sent))
  {
  }

  /** A failed radio write of a mouse frame aborts the script. */
  lemma MouseRadioFailureIsFatal(c: Ctx, env: Env)
    requires WellFormed(c) && c.state == Working && c.execute && c.currentTask.MouseReport? && !c.usbInject
    ensures var r := TimerHandler(c, env, false);
      r.state == Idle && !r.execute && r.cursor == 0 && r.tasks == c.tasks
  {
  }

  /** A failed radio write of a keyboard frame is only logged: the outcome is that of a successful write. */
  lemma KeyboardRadioFailureIsLogged(c: Ctx, env: Env)
    requires WellFormed(c) && c.state == Working && c.execute && !c.usbInject
    requires c.currentTask.PressKeys? || c.currentTask.TypeString? || c.currentTask.TypeAltString?
    ensures var r := TimerHandler(c, env, false);
      && r == TimerHandler(c, env, true)
      && r.state == Working && r.execute && r.cursor == c.cursor && r.provider == c.provider
  {
  }

  // ---------------------------------------------------------------------------
  // ESB handler

  /** At the retransmit ceiling the current task fails before the event is looked at. */
  lemma CeilingForcesFailure(c: Ctx, env: Env)
    requires WellFormed(c) && c.state != Failed && c.retransmitCounter >= INJECT_RETRANSMIT_BEFORE_FAIL
    ensures var r := EsbHandler(c, env, RxReceived);
      r.state == Idle && !r.execute && r.cursor == 0 && r.retransmitCounter == 0
    ensures var r := EsbHandler(c, env, TxFailed);
      r.state == Idle && !r.execute && r.cursor == 0 && r.retransmitCounter == 0
  {
    FailedAborts(c, env);
    var f := TransferState(c, env, Failed);
    TaskSucceededReturnsToIdle(f, env);
  }

  /** A radio TX_FAILED ends the current task as succeeded. */
  lemma TxFailedCountsAsSuccess(c: Ctx, env: Env)
    requires WellFormed(c) && c.retransmitCounter < INJECT_RETRANSMIT_BEFORE_FAIL
    ensures EsbHandler(c, env, TxFailed) == TransferState(c, env, TaskSucceeded)
  {
  }

  /** A received packet is ignored below the ceiling. */
  lemma RxReceivedIgnored(c: Ctx, env: Env)
    requires WellFormed(c) && c.retransmitCounter < INJECT_RETRANSMIT_BEFORE_FAIL
    ensures EsbHandler(c, env, RxReceived) == c
  {
  }

  /**
   * TX_SUCCESS (after a flush of the RX FIFO for ACK_PAY) zeroes the counter; then
   * a missing provider means IDLE, a produced frame re-arms the timer without a
   * state change, and an exhausted provider means TASK_SUCCEEDED.
   */
  lemma TxSuccessPacesNextFrame(c: Ctx, env: Env, ev: EsbEvent)
    requires WellFormed(c) && c.retransmitCounter < INJECT_RETRANSMIT_BEFORE_FAIL
    requires ev == TxSuccess || ev == TxSuccessAckPay
    ensures var r := EsbHandler(c, env, ev);
      var flushed := c.(retransmitCounter := 0, effects := c.effects + (if ev == TxSuccessAckPay then [EsbFlushRx] else []));
      && r.retransmitCounter == 0
      && (c.provider == NoProvider ==> r.state == Idle && (c.state != Idle ==> !r.execute))
      && (c.provider != NoProvider && ProviderGetNext(flushed).ok ==>
            && r.state == c.state && r.execute == c.execute
            && r.payload == ProviderGetNext(flushed).ctx.payload
            && r.effects == flushed.effects + [TimerStart(c.txDelayMs)])
      && (c.provider != NoProvider && !ProviderGetNext(flushed).ok ==>
            r == TransferState(ProviderGetNext(flushed).ctx, env, TaskSucceeded))
  {
    var c1 := if ev == TxSuccessAckPay then c.(effects := c.effects + [EsbFlushRx]) else c;
    assert EsbHandler(c, env, ev) == TxSucceeded(c1, env);
    var flushed := c.(retransmitCounter := 0, effects := c.effects + (if ev == TxSuccessAckPay then [EsbFlushRx] else []));
    assert c1.(retransmitCounter := 0) == flushed;
  }

  // ---------------------------------------------------------------------------
  // USB IN_REPORT_DONE

  /** Events other than IN_REPORT_DONE change nothing. */
  lemma UsbOtherEventsIgnored(c: Ctx, env: Env, ev: UsbEvent, esbWriteOk: bool)
    requires WellFormed(c) && ev != InReportDone
    ensures UsbKeyboardEvent(c, env, ev, esbWriteOk) == c
    ensures UsbMouseEvent(c, env, ev, esbWriteOk) == c
  {
  }

  /**
   * With the LED trigger configured and not yet fired, the first keyboard
   * IN_REPORT_DONE only arms the pre-delay timer, lights the LED and marks the
   * trigger; the payload and the provider stay as they are.
   */
  lemma LedTriggerDefersInjection(c: Ctx, env: Env, esbWriteOk: bool)
    requires WellFormed(c) && c.provider != NoProvider && !c.usbInjectTriggered
    requires env.bootmode == BootmodeUsbInject && env.usbInjectTrigger == TriggerOnLedUpdate
    ensures var r := UsbKeyboardEvent(c, env, InReportDone, esbWriteOk);
      && r.usbInjectTriggered && r.state == c.state && r.payload == c.payload && r.provider == c.provider
      && r.retransmitCounter == 0
      && r.effects == c.effects + [TimerStart(env.ledTriggerPreDelayMs), LedGreenOn]
  {
  }

  /** Otherwise the next frame is fetched and handed straight to the timer handler, without arming the timer. */
  lemma UsbSendsWithoutDelay(c: Ctx, env: Env, esbWriteOk: bool)
    requires WellFormed(c) && c.provider != NoProvider
    requires c.usbInjectTriggered || env.bootmode != BootmodeUsbInject || env.usbInjectTrigger != TriggerOnLedUpdate
    ensures var f := ProviderGetNext(c.(retransmitCounter := 0));
      && (f.ok ==> UsbKeyboardEvent(c, env, InReportDone, esbWriteOk) == TimerHandler(f.ctx, env, esbWriteOk))
      && (f.ok ==> UsbMouseEvent(c, env, InReportDone, esbWriteOk) == TimerHandler(f.ctx, env, esbWriteOk))
      && (!f.ok ==> UsbKeyboardEvent(c, env, InReportDone, esbWriteOk) == TransferState(f.ctx, env, TaskSucceeded))
      && (!f.ok ==> UsbMouseEvent(c, env, InReportDone, esbWriteOk) == TransferState(f.ctx, env, TaskSucceeded))
  {
  }

  // ---------------------------------------------------------------------------
  // Setup

  /** Init picks the tx delay from the work mode alone, stages a zero payload, and enters IDLE with the counter at 0. */
  lemma InitSetsDelay(c: Ctx, env: Env)
    ensures var r := Init(c, env);
      && r.txDelayMs == (if env.workmode == WorkmodeUnifying then 8 else 1)
      && r.state == Idle && r.retransmitCounter == 0 && r.payload.length == 0
      && (forall i :: 0 <= i < |r.payload.data| ==> r.payload.data[i] == 0)
      && r.tasks == c.tasks && r.execute == c.execute && r.provider == c.provider
  {
  }

  /** Deinit keeps the queue, clears the address and the payload, and leaves the processor NOT_INITIALIZED. */
  lemma DeinitKeepsQueue(c: Ctx)
    ensures var r := Deinit(c);
      && r.state == NotInitialized && r.retransmitCounter == 0
      && r.tasks == c.tasks && r.cursor == c.cursor && r.execute == c.execute
      && |r.rfAddress| == |c.rfAddress| && (forall i :: 0 <= i < |r.rfAddress| ==> r.rfAddress[i] == 0)
  {
  }

  /** A fresh processor is IDLE, paused, without provider, and injects over USB iff the address is all zero. */
  lemma NewProcessorStartsIdle(address: seq<byte>, mouse: MouseCtx, tasks: seq<Task>, triggered: bool)
    requires |address| == 5
    ensures var r := NewProcessor(address, mouse, tasks, triggered);
      && r.state == Idle && !r.execute && r.provider == NoProvider && r.cursor == 0
      && (r.usbInject <==> address == [0, 0, 0, 0, 0])
  {
    var r := NewProcessor(address, mouse, tasks, triggered);
    if r.usbInject {
      assert address == [address[0], address[1], address[2], address[3], address[4]];
    }
  }

  /** Stopping execution only clears the flag; starting it runs a round, which settles. */
  lemma StartExecutionSettles(c: Ctx, env: Env, execute: bool)
    requires WellFormed(c)
    ensures !execute ==> StartExecution(c, env, execute) == c.(execute := false)
    ensures execute && c.state == Idle ==> Settled(StartExecution(c, env, execute))
  {
    if execute && c.state == Idle {
      RunNextTaskSettles(c.(execute := true), env);
    }
  }

  // ---------------------------------------------------------------------------
  // The retransmit counter

  /** Everything the outside world can do to the processor. */
  datatype Event =
    | TimerFired(esbWriteOk: bool)
    | Radio(esb: EsbEvent)
    | UsbKeyboard(usbKeyboard: UsbEvent, keyboardWriteOk: bool)
    | UsbMouse(usbMouse: UsbEvent, mouseWriteOk: bool)
    | Start(execute: bool)
    | InitMode
    | DeinitMode

  function Handle(c: Ctx, env: Env, e: Event): (r: Ctx)
    requires WellFormed(c)
    ensures WellFormed(r)
  {
    match e
    case TimerFired(ok) => TimerHandler(c, env, ok)
    case Radio(ev) => EsbHandler(c, env, ev)
    case UsbKeyboard(ev, ok) => UsbKeyboardEvent(c, env, ev, ok)
    case UsbMouse(ev, ok) => UsbMouseEvent(c, env, ev, ok)
    case Start(x) => StartExecution(c, env, x)
    case InitMode => Init(c, env)
    case DeinitMode => Deinit(c)
  }

  /** The context after a sequence of events. */
  function Run(c: Ctx, env: Env, events: seq<Event>): (r: Ctx)
    requires WellFormed(c)
    ensures WellFormed(r)
    decreases |events|
  {
    if events == [] then c else Run(Handle(c, env, events[0]), env, events[1..])
  }

  /**
   * Every write to the counter stores 0, so from a fresh processor it is 0 after
   * any sequence of events, and the ceiling branch of the ESB handler is never taken.
   */
  lemma {:induction false} CounterStaysZero(c: Ctx, env: Env, events: seq<Event>)
    requires WellFormed(c) && c.retransmitCounter == 0
    ensures Run(c, env, events).retransmitCounter == 0
    ensures Run(c, env, events).retransmitCounter < INJECT_RETRANSMIT_BEFORE_FAIL
    decreases |events|
  {
    if events != [] {
      CounterStaysZero(Handle(c, env, events[0]), env, events[1..]);
    }
  }

  /** Hence a radio TX_FAILED, at any point of a fresh processor's life, simply ends the current task as succeeded. */
  lemma CeilingUnreachable(address: seq<byte>, mouse: MouseCtx, tasks: seq<Task>, triggered: bool,
                           env: Env, events: seq<Event>)
    ensures var c := Run(NewProcessor(address, mouse, tasks, triggered), env, events);
      EsbHandler(c, env, TxFailed) == TransferState(c, env, TaskSucceeded)
  {
    CounterStaysZero(NewProcessor(address, mouse, tasks, triggered), env, events);
  }
}
