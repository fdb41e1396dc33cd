/**
 * The injection processor of logitacker_processor_inject.c as a class: the fields
 * of `logitacker_processor_inject_ctx_t` that the model keeps, the script engine's
 * queue and cursor, the global "USB injection triggered" flag and the effect log.
 * The static mouse provider is a separate object that the processor drives. Every
 * method is proved to change the state exactly as the function of the same name
 * in InjectSpec says.
 */
module InjectProcessor {
  import opened Wire
  import opened MouseFrames
  import opened MousePayloadProvider
  import opened InjectSpec

  /** Whether the five-byte target address is all zeros, by the constructor's early-exit loop. */
  method IsUsbTarget(address: seq<byte>) returns (usbInject: bool)
    ensures usbInject == UsbInjectAddress(address)
  {
    usbInject := true;
    var i := 0;
    while i < |address|
      invariant 0 <= i <= |address|
      invariant usbInject && forall k :: 0 <= k < i ==> address[k] == 0
    {
      if address[i] != 0 {
        usbInject := false;
        assert !UsbInjectAddress(address);
        return;
      }
      i := i + 1;
    }
  }

  /** The work-mode switch of `process_task_mouse`: every mode but Unifying uses the lightspeed encoding. */
  method LightspeedWorkmode(mode: WorkMode) returns (isLightspeed: bool)
    ensures isLightspeed <==> mode != WorkmodeUnifying
  {
    isLightspeed := false;
    match mode {
      case WorkmodeLightspeed => isLightspeed := true;
      case WorkmodeG700 => isLightspeed := true;
      case WorkmodeAll => isLightspeed := true;
      case WorkmodeG305 => isLightspeed := true;
      case WorkmodeUnifying =>
    }
  }

  class Processor {
    var state: InjectState
    var execute: bool
    var retransmitCounter: int
    var provider: ProviderSlot
    var payload: Payload
    var currentTask: Task
    var tasks: seq<Task>
    var cursor: nat
    var txDelayMs: nat
    var usbInject: bool
    var rfAddress: seq<byte>
    var usbInjectTriggered: bool
    var effects: seq<Effect>
    const mouseProvider: MouseProvider
    const env: Env

    /** The whole state as a value of the reference semantics. */
    function Snapshot(): Ctx
      reads this, mouseProvider
    {
      Ctx(state, execute, retransmitCounter, provider, mouseProvider.Ctx(), payload, currentTask,
          tasks, cursor, txDelayMs, usbInject, rfAddress, usbInjectTriggered, effects)
    }

    predicate Valid()
      reads this
    {
      cursor <= |tasks|
    }

    /** `new_processor_inject`: the zeroed static context for the target address. */
    constructor (address: seq<byte>, mouseProvider: MouseProvider, env: Env, tasks: seq<Task>, usbInjectTriggered: bool)
      requires |address| == 5
      ensures this.mouseProvider == mouseProvider && this.env == env
      ensures Valid()
      ensures Snapshot() == NewProcessor(address, mouseProvider.Ctx(), tasks, usbInjectTriggered)
    {
      var usb := IsUsbTarget(address);
      state := Idle;
      execute := false;
      retransmitCounter := 0;
      provider := NoProvider;
      payload := ZeroPayload();
      currentTask := UnknownTask(0);
      this.tasks := tasks;
      cursor := 0;
      txDelayMs := 0;
      usbInject := usb;
      rfAddress := address;
      this.usbInjectTriggered := usbInjectTriggered;
      effects := [];
      this.mouseProvider := mouseProvider;
      this.env := env;
    }

    /** `processor_inject_init_func_` without the radio set-up. */
    method Init()
      modifies this`txDelayMs, this`payload, this`state, this`retransmitCounter
      ensures Snapshot() == InjectSpec.Init(old(Snapshot()), env)
    {
      match env.workmode {
        case WorkmodeLightspeed => txDelayMs := INJECT_TX_DELAY_MS_LIGHTSPEED;
        case WorkmodeG700 => txDelayMs := INJECT_TX_DELAY_MS_LIGHTSPEED;
        case WorkmodeUnifying => txDelayMs := INJECT_TX_DELAY_MS_UNIFYING;
        case WorkmodeAll => txDelayMs := INJECT_TX_DELAY_MS_LIGHTSPEED;
        case WorkmodeG305 => txDelayMs := INJECT_TX_DELAY_MS_LIGHTSPEED;
      }
      payload := ZeroPayload();
      state := Idle;
      retransmitCounter := 0;
    }

    /** `processor_inject_deinit_func_` without the radio tear-down; the script queue is kept. */
    method Deinit()
      modifies this`rfAddress, this`payload, this`state, this`retransmitCounter
      ensures Snapshot() == InjectSpec.Deinit(old(Snapshot()))
    {
      rfAddress := seq(|rfAddress|, i => 0);
      payload := ZeroPayload();
      state := NotInitialized;
      retransmitCounter := 0;
    }

    /** `p_reset` of the current provider, if there is one. */
    method ResetProvider()
      modifies this`provider, this`effects, mouseProvider
      ensures Snapshot() == InjectSpec.ResetProvider(old(Snapshot()))
    {
      match provider {
        case NoProvider =>
        case KeyProvider(frames, _) =>
          provider := KeyProvider(frames, 0);
          effects := effects + [ProviderReset];
        case MouseSlot =>
          mouseProvider.Reset();
          effects := effects + [ProviderReset];
      }
    }

    /** `p_get_next` of the current provider into `tmp_tx_payload`. */
    method GetNext() returns (ok: bool)
      requires provider != NoProvider
      modifies this`payload, this`provider, mouseProvider
      ensures Snapshot() == ProviderGetNext(old(Snapshot())).ctx
      ensures ok == ProviderGetNext(old(Snapshot())).ok
    {
      match provider {
        case KeyProvider(frames, next) =>
          if next < |frames| {
            payload := frames[next];
            provider := KeyProvider(frames, next + 1);
            ok := true;
          } else {
            ok := false;
          }
        case MouseSlot =>
          var q;
          ok, q := mouseProvider.Next(payload);
          payload := q;
      }
    }

    /** The switch on `inject_on_fail` / `inject_on_success`. */
    method AfterInject(action: AfterInject)
      modifies this`effects
      ensures Snapshot() == AfterInjectAction(old(Snapshot()), action)
    {
      match action {
        case Continue =>
        case SwitchDiscovery =>
          effects := effects + [EnterDiscovery];
        case SwitchActiveEnumeration =>
          effects := effects + [EnterActiveEnum(rfAddress)];
          effects := effects + [EnterPassiveEnum(rfAddress)];
        case SwitchPassiveEnumeration =>
          effects := effects + [EnterPassiveEnum(rfAddress)];
      }
    }

    /** The `switch` of `transfer_state`; the two flags ask for the trailing provider reset and next task. */
    method SwitchState(s: InjectState) returns (resetProvider: bool, runNext: bool)
      requires Valid()
      modifies this, mouseProvider
      ensures Valid()
      ensures resetProvider == RequestsReset(s) && runNext == RequestsReset(s)
      ensures Snapshot() == InjectSpec.SwitchState(old(Snapshot()), env, s)
    {
      resetProvider := false;
      runNext := false;
      match s {
        case Idle =>
          StopTimer();
          state := Idle;
          resetProvider := true;
          runNext := true;
          execute := false;
        case TaskSucceeded =>
          StopTimer();
          resetProvider := true;
          runNext := true;
          state := Idle;
        case Failed =>
          EnterFailed();
        case ScriptSucceeded =>
          EnterScriptSucceeded();
        case Working =>
          state := Working;
        case NotInitialized =>
          state := NotInitialized;
      }
    }

    /** `app_timer_stop` with the retransmit counter cleared. */
    method StopTimer()
      modifies this`effects, this`retransmitCounter
      ensures Snapshot() == InjectSpec.StopTimer(old(Snapshot()))
    {
      effects := effects + [TimerStop];
      retransmitCounter := 0;
    }

    /** The FAILED case of `transfer_state`: stop, rewind, then the on-fail mode switch. */
    method EnterFailed()
      requires Valid()
      modifies this`effects, this`retransmitCounter, this`provider, this`cursor, this`execute, this`state, mouseProvider
      ensures Valid()
      ensures Snapshot() == Abort(old(Snapshot()), env)
    {
      StopTimer();
      ResetProvider();
      ghost var c1 := Snapshot();
      cursor := 0;
      execute := false;
      state := Idle;
      assert Snapshot() == c1.(cursor := 0, execute := false, state := Idle);
      AfterInject(env.injectOnFail);
    }

    /** The SCRIPT_SUCCEEDED case of `transfer_state`: flush the queue, then the on-success mode switch. */
    method EnterScriptSucceeded()
      requires Valid()
      modifies this`state, this`tasks, this`cursor, this`effects
      ensures Valid()
      ensures Snapshot() == FinishScript(old(Snapshot()), env)
    {
      state := Idle;
      tasks := [];
      cursor := 0;
      AfterInject(env.injectOnSuccess);
    }

    /** `transfer_state`. */
    method TransferState(s: InjectState)
      requires Valid()
      modifies this, mouseProvider
      ensures Valid()
      ensures Snapshot() == InjectSpec.TransferState(old(Snapshot()), env, s)
      decreases Pending(Snapshot()), if s == TaskSucceeded && execute then 5 else 0
    {
      if s == state {
        return;
      }
      var resetProvider, runNext := SwitchState(s);
      if resetProvider {
        ResetProvider();
      }
      if runNext && execute {
        RunNextTask();
      }
    }

    /** `logitacker_processor_inject_run_next_task`. */
    method RunNextTask()
      requires Valid()
      modifies this, mouseProvider
      ensures Valid()
      ensures Snapshot() == InjectSpec.RunNextTask(old(Snapshot()), env)
      decreases Pending(Snapshot()), 4
    {
      if state != Idle {
        return;
      }
      if cursor == |tasks| {
        cursor := 0;
        execute := false;
        TransferState(ScriptSucceeded);
        return;
      }
      var task := tasks[cursor];
      currentTask := task;
      cursor := cursor + 1;
      StartTask(task);
    }

    /** The `switch` of `run_next_task` on the type of the record just read. */
    method StartTask(task: Task)
      requires Valid()
      modifies this, mouseProvider
      ensures Valid()
      ensures Snapshot() == InjectSpec.StartTask(old(Snapshot()), env, task)
      decreases if execute then |tasks| - cursor + 1 else 0, if execute then 1 else 3
    {
      match task {
        case PressKeys(frames) => ProcessKeyTask(frames);
        case TypeString(frames) => ProcessKeyTask(frames);
        case TypeAltString(frames) => ProcessKeyTask(frames);
        case Delay(ms) => ProcessDelayTask(ms);
        case MouseReport(m, count) => ProcessMouseTask(m, count);
        case UnknownTask(_) => TransferState(Failed);
      }
    }

    /** `process_task_press`, `process_task_string` and `process_task_altstring`, given their provider's frames. */
    method ProcessKeyTask(frames: seq<Payload>)
      requires Valid()
      modifies this, mouseProvider
      ensures Valid()
      ensures Snapshot() == StartKeys(old(Snapshot()), env, frames)
      decreases if execute then |tasks| - cursor + 1 else 0, if execute then 0 else 2
    {
      provider := KeyProvider(frames, 0);
      StartProvider();
    }

    /** Shared tail of the provider-based task starters: fetch the first frame, then WORKING with the timer, or FAILED. */
    method StartProvider()
      requires Valid() && provider != NoProvider
      modifies this, mouseProvider
      ensures Valid()
      ensures Snapshot() == StartPrimed(ProviderGetNext(old(Snapshot())), env)
      decreases Pending(Snapshot()), 1
    {
      var ok := GetNext();
      if !ok {
        TransferState(Failed);
        return;
      }
      TransferState(Working);
      effects := effects + [TimerStart(txDelayMs)];
    }

    /** `process_task_mouse`; `m` is what the mouse-map decoder returned for the record's data. */
    method ProcessMouseTask(m: Option<MouseMap>, count: nat)
      requires Valid()
      modifies this, mouseProvider
      ensures Valid()
      ensures Snapshot() == StartMouse(old(Snapshot()), env, m, count)
      decreases if execute then |tasks| - cursor + 1 else 0, if execute then 0 else 2
    {
      ghost var c0 := Snapshot();
      var isLightspeed := LightspeedWorkmode(env.workmode);
      if m.None? {
        TransferState(Failed);
        return;
      }
      mouseProvider.New(usbInject, m.value, count, isLightspeed);
      provider := MouseSlot;
      assert Snapshot() == c0.(provider := MouseSlot, mouse := NewCtx(c0.usbInject, m.value, count, isLightspeed));
      StartProvider();
    }

    /** `process_task_delay`. */
    method ProcessDelayTask(ms: uint32)
      requires Valid()
      modifies this, mouseProvider
      ensures Valid()
      ensures Snapshot() == StartDelay(old(Snapshot()), env, ms)
      decreases if execute then |tasks| - cursor + 1 else 0, if execute then 0 else 2
    {
      provider := NoProvider;
      if ms == 0 {
        TransferState(TaskSucceeded);
        return;
      }
      TransferState(Working);
      effects := effects + [TimerStart(ms)];
    }

    /** The radio write of the timer handler: checksum, then `nrf_esb_write_payload`. */
    method WriteRadio()
      modifies this`payload, this`effects
      ensures Snapshot() == RadioWrite(old(Snapshot()), env)
    {
      payload := payload.(data := env.checksum(payload.data, payload.length));
      effects := effects + [EsbWrite(payload)];
    }

    /** `processor_inject_timer_handler_func_`; `esbWriteOk` is what the radio driver answers. */
    method TimerHandler(esbWriteOk: bool)
      requires Valid()
      modifies this, mouseProvider
      ensures Valid()
      ensures Snapshot() == InjectSpec.TimerHandler(old(Snapshot()), env, esbWriteOk)
    {
      if !(state == Working && execute) {
        return;
      }
      match currentTask {
        case Delay(_) =>
          TransferState(TaskSucceeded);
        case PressKeys(_) => SendKeyboardReport();
        case TypeString(_) => SendKeyboardReport();
        case TypeAltString(_) => SendKeyboardReport();
        case MouseReport(_, _) =>
          if usbInject {
            effects := effects + [UsbMouseWrite(payload.data)];
          } else {
            WriteRadio();
            if !esbWriteOk {
              TransferState(Failed);
            }
          }
        case UnknownTask(_) =>
      }
    }

    /** The keyboard branch of the timer handler. */
    method SendKeyboardReport()
      modifies this`payload, this`effects
      ensures Snapshot() == SendKeyboard(old(Snapshot()), env)
    {
      if usbInject {
        effects := effects + [UsbKeyboardWrite(payload.data)];
      } else {
        WriteRadio();
      }
    }

    /** `processor_inject_esb_handler_func_`. */
    method EsbHandler(ev: EsbEvent)
      requires Valid()
      modifies this, mouseProvider
      ensures Valid()
      ensures Snapshot() == InjectSpec.EsbHandler(old(Snapshot()), env, ev)
    {
      if retransmitCounter >= INJECT_RETRANSMIT_BEFORE_FAIL {
        TransferState(Failed);
      }
      match ev {
        case TxFailed =>
          TransferState(TaskSucceeded);
        case TxSuccessAckPay =>
          effects := effects + [EsbFlushRx];
          OnTxSuccess();
        case TxSuccess =>
          OnTxSuccess();
        case RxReceived =>
      }
    }

    /** The TX_SUCCESS branch: fetch the next payload and pace it, or finish the current task. */
    method OnTxSuccess()
      requires Valid()
      modifies this, mouseProvider
      ensures Valid()
      ensures Snapshot() == TxSucceeded(old(Snapshot()), env)
    {
      retransmitCounter := 0;
      if provider == NoProvider {
        TransferState(Idle);
        return;
      }
      var ok := GetNext();
      if ok {
        effects := effects + [TimerStart(txDelayMs)];
      } else {
        TransferState(TaskSucceeded);
      }
    }

    /** IN_REPORT_DONE with a provider: the next payload goes out at once through the timer handler. */
    method SendNextOverUsb(esbWriteOk: bool)
      requires Valid() && provider != NoProvider
      modifies this, mouseProvider
      ensures Valid()
      ensures Snapshot() == UsbSendNext(old(Snapshot()), env, esbWriteOk)
    {
      var ok := GetNext();
      if ok {
        TimerHandler(esbWriteOk);
      } else {
        TransferState(TaskSucceeded);
      }
    }

    /** `processor_inject_hid_keyboard_event_handler_`. */
    method HidKeyboardEvent(ev: UsbEvent, esbWriteOk: bool)
      requires Valid()
      modifies this, mouseProvider
      ensures Valid()
      ensures Snapshot() == UsbKeyboardEvent(old(Snapshot()), env, ev, esbWriteOk)
    {
      if ev != InReportDone {
        return;
      }
      retransmitCounter := 0;
      if provider == NoProvider {
        TransferState(Idle);
        return;
      }
      if env.bootmode == BootmodeUsbInject && env.usbInjectTrigger == TriggerOnLedUpdate && !usbInjectTriggered {
        effects := effects + [TimerStart(env.ledTriggerPreDelayMs)];
        usbInjectTriggered := true;
        effects := effects + [LedGreenOn];
      } else {
        SendNextOverUsb(esbWriteOk);
      }
    }

    /** `processor_inject_hid_mouse_event_handler_`. */
    method HidMouseEvent(ev: UsbEvent, esbWriteOk: bool)
      requires Valid()
      modifies this, mouseProvider
      ensures Valid()
      ensures Snapshot() == UsbMouseEvent(old(Snapshot()), env, ev, esbWriteOk)
    {
      if ev != InReportDone {
        return;
      }
      retransmitCounter := 0;
      if provider == NoProvider {
        TransferState(Idle);
        return;
      }
      SendNextOverUsb(esbWriteOk);
    }

    /** `logitacker_processor_inject_start_execution`. */
    method StartExecution(execute: bool)
      requires Valid()
      modifies this, mouseProvider
      ensures Valid()
      ensures Snapshot() == InjectSpec.StartExecution(old(Snapshot()), env, execute)
    {
      this.execute := execute;
      if this.execute {
        RunNextTask();
      }
    }
  }
}
