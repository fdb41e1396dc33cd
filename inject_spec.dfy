/**
 * Reference semantics of the injection processor (logitacker_processor_inject.c)
 * as functions on a value `Ctx` that holds the processor context together with
 * the parts of its collaborators it reads or changes: the script engine's task
 * queue (a sequence and a read cursor), the static mouse provider context, the
 * global "USB injection triggered" flag, and a log of abstract effect records for
 * the timer, radio, USB, LED and mode-switch calls. The class in
 * inject_processor.dfy is proved to follow these functions step by step.
 *
 * `transfer_state` calls `run_next_task`, which calls a task starter, which calls
 * `transfer_state` again. The recursion ends because each round reads one more
 * task: the measure is the number of unread tasks while `execute` is set.
 */
module InjectSpec {
  import opened Wire
  import opened MouseFrames
  import opened MousePayloadProvider

  const INJECT_TX_DELAY_MS_UNIFYING: nat := 8
  const INJECT_TX_DELAY_MS_LIGHTSPEED: nat := 1
  const INJECT_RETRANSMIT_BEFORE_FAIL: int := 10

  datatype InjectState = Idle | Working | TaskSucceeded | ScriptSucceeded | Failed | NotInitialized

  /** `g_logitacker_global_config.workmode`. */
  datatype WorkMode = WorkmodeLightspeed | WorkmodeG700 | WorkmodeUnifying | WorkmodeAll | WorkmodeG305

  /** `inject_on_fail` / `inject_on_success`. */
  datatype AfterInject = Continue | SwitchDiscovery | SwitchActiveEnumeration | SwitchPassiveEnumeration

  datatype BootMode = BootmodeUsbInject | BootmodeOther
  datatype UsbInjectTrigger = TriggerOnLedUpdate | TriggerOther

  /**
   * The global configuration and the collaborators whose code is not part of this
   * model: the Unifying checksum routine, given as a function of the data buffer
   * and the payload length, and the pre-delay of the USB LED trigger.
   */
  datatype Env = Env(
    workmode: WorkMode,
    injectOnFail: AfterInject,
    injectOnSuccess: AfterInject,
    bootmode: BootMode,
    usbInjectTrigger: UsbInjectTrigger,
    ledTriggerPreDelayMs: nat,
    checksum: (PayloadData, nat) -> PayloadData)

  /**
   * A task read from the script engine. The keyboard tasks carry the frames their
   * (external) providers produce; a mouse task carries the result of the external
   * `logitacker_mouse_map_get_from_data` (None for NULL) and the address of its
   * repeat count, in 32-bit words.
   */
  datatype Task =
    | Delay(ms: uint32)
    | PressKeys(frames: seq<Payload>)
    | TypeString(frames: seq<Payload>)
    | TypeAltString(frames: seq<Payload>)
    | MouseReport(mouseMap: Option<MouseMap>, count: nat)
    | UnknownTask(code: int)

  /** `p_payload_provider`: NULL, a keyboard provider's cursor over its frames, or the static mouse provider. */
  datatype ProviderSlot = NoProvider | KeyProvider(frames: seq<Payload>, next: nat) | MouseSlot

  /** Calls into collaborators, recorded in order. */
  datatype Effect =
    | TimerStop
    | TimerStart(ms: nat)
    | ProviderReset
    | EnterDiscovery
    | EnterActiveEnum(address: seq<byte>)
    | EnterPassiveEnum(address: seq<byte>)
    | UsbKeyboardWrite(report: PayloadData)
    | UsbMouseWrite(report: PayloadData)
    | EsbWrite(payload: Payload)
    | EsbFlushRx
    | LedGreenOn

  datatype EsbEvent = TxSuccess | TxSuccessAckPay | TxFailed | RxReceived
  datatype UsbEvent = OutReportReady | InReportDone | SetBootProto | SetReportProto

  datatype Ctx = Ctx(
    state: InjectState,
    execute: bool,
    retransmitCounter: int,
    provider: ProviderSlot,
    mouse: MouseCtx,
    payload: Payload,
    currentTask: Task,
    tasks: seq<Task>,
    cursor: nat,
    txDelayMs: nat,
    usbInject: bool,
    rfAddress: seq<byte>,
    usbInjectTriggered: bool,
    effects: seq<Effect>)

  /** The read cursor of the script engine stays within its queue. */
  predicate WellFormed(c: Ctx)
  {
    c.cursor <= |c.tasks|
  }

  /** Tasks still to be read while execution is enabled. */
  function Pending(c: Ctx): nat
    requires WellFormed(c)
  {
    if c.execute then |c.tasks| - c.cursor else 0
  }

  /** The tx-delay table of init: only the Unifying work mode paces classic frames at 8 ms. */
  function TxDelayMs(mode: WorkMode): (ms: nat)
    ensures ms == if mode == WorkmodeUnifying then INJECT_TX_DELAY_MS_UNIFYING else INJECT_TX_DELAY_MS_LIGHTSPEED
  {
    match mode
    case WorkmodeLightspeed => INJECT_TX_DELAY_MS_LIGHTSPEED
    case WorkmodeG700 => INJECT_TX_DELAY_MS_LIGHTSPEED
    case WorkmodeUnifying => INJECT_TX_DELAY_MS_UNIFYING
    case WorkmodeAll => INJECT_TX_DELAY_MS_LIGHTSPEED
    case WorkmodeG305 => INJECT_TX_DELAY_MS_LIGHTSPEED
  }

  /** The constructor's rule: injection goes to USB iff the target address is all zero. */
  predicate UsbInjectAddress(address: seq<byte>)
  {
    forall i :: 0 <= i < |address| ==> address[i] == 0
  }

  /** `if (p_payload_provider != NULL) p_reset(...)`. */
  function ResetProvider(c: Ctx): (r: Ctx)
    ensures r == c.(provider := r.provider, mouse := r.mouse, effects := r.effects)
  {
    match c.provider
    case NoProvider => c
    case KeyProvider(frames, _) => c.(provider := KeyProvider(frames, 0), effects := c.effects + [ProviderReset])
    case MouseSlot => c.(mouse := ResetCtx(c.mouse), effects := c.effects + [ProviderReset])
  }

  /** The mode switch after a failed or finished script; ACTIVE_ENUMERATION falls through to PASSIVE_ENUMERATION. */
  function AfterInjectAction(c: Ctx, action: AfterInject): (r: Ctx)
    ensures r == c.(effects := r.effects)
  {
    match action
    case Continue => c
    case SwitchDiscovery => c.(effects := c.effects + [EnterDiscovery])
    case SwitchActiveEnumeration =>
      c.(effects := c.effects + [EnterActiveEnum(c.rfAddress), EnterPassiveEnum(c.rfAddress)])
    case SwitchPassiveEnumeration => c.(effects := c.effects + [EnterPassiveEnum(c.rfAddress)])
  }

  /** The result of `p_get_next`: the new context (provider cursor, staged payload) and the boolean. */
  datatype Fetch = Fetch(ctx: Ctx, ok: bool)

  /** `(*p_payload_provider->p_get_next)(p_payload_provider, &tmp_tx_payload)`. */
  function ProviderGetNext(c: Ctx): (f: Fetch)
    requires c.provider != NoProvider
    ensures f.ctx == c.(provider := f.ctx.provider, mouse := f.ctx.mouse, payload := f.ctx.payload)
  {
    match c.provider
    case KeyProvider(frames, next) =>
      if next < |frames| then Fetch(c.(provider := KeyProvider(frames, next + 1), payload := frames[next]), true)
      else Fetch(c, false)
    case MouseSlot =>
      var s := NextStep(c.mouse, c.payload);
      Fetch(c.(mouse := s.ctx, payload := s.payload), s.produced)
  }

  /** Whether the `switch` of `transfer_state` asks for the trailing provider reset and next-task step. */
  predicate RequestsReset(s: InjectState)
  {
    s == Idle || s == TaskSucceeded
  }

  /** `app_timer_stop` with the retransmit counter cleared, as IDLE, TASK_SUCCEEDED and FAILED begin. */
  function StopTimer(c: Ctx): Ctx
  {
    c.(effects := c.effects + [TimerStop], retransmitCounter := 0)
  }

  /** The FAILED case of `transfer_state`: stop the timer, reset the provider, rewind, stop, then the on-fail mode switch. */
  function Abort(c: Ctx, env: Env): (r: Ctx)
    ensures r.state == Idle && !r.execute && r.cursor == 0 && r.retransmitCounter == 0 && r.tasks == c.tasks
  {
    var c1 := ResetProvider(StopTimer(c));
    AfterInjectAction(c1.(cursor := 0, execute := false, state := Idle), env.injectOnFail)
  }

  /** The SCRIPT_SUCCEEDED case of `transfer_state`: flush the queue, then the on-success mode switch. */
  function FinishScript(c: Ctx, env: Env): (r: Ctx)
    ensures r.state == Idle && r.tasks == [] && r.cursor == 0 && r.execute == c.execute
    ensures r.retransmitCounter == c.retransmitCounter
  {
    AfterInjectAction(c.(state := Idle, tasks := [], cursor := 0), env.injectOnSuccess)
  }

  /** The `switch` of `transfer_state`. */
  function SwitchState(c: Ctx, env: Env, s: InjectState): (r: Ctx)
    requires WellFormed(c)
    ensures WellFormed(r)
    ensures r.retransmitCounter == 0 || r.retransmitCounter == c.retransmitCounter
    ensures s == TaskSucceeded ==> r.tasks == c.tasks && r.cursor == c.cursor && r.execute == c.execute
    ensures s == Idle ==> !r.execute
  {
    match s
    case Idle => StopTimer(c).(state := Idle, execute := false)
    case TaskSucceeded => StopTimer(c).(state := Idle)
    case Failed => Abort(c, env)
    case ScriptSucceeded => FinishScript(c, env)
    case Working => c.(state := Working)
    case NotInitialized => c.(state := NotInitialized)
  }

  /** `transfer_state`. */
  function TransferState(c: Ctx, env: Env, s: InjectState): (r: Ctx)
    requires WellFormed(c)
    ensures WellFormed(r)
    ensures c.retransmitCounter == 0 ==> r.retransmitCounter == 0
    decreases Pending(c), if s == TaskSucceeded && c.execute then 5 else 0
  {
    if s == c.state then c
    else
      var c1 := SwitchState(c, env, s);
      var c2 := if RequestsReset(s) then ResetProvider(c1) else c1;
      if RequestsReset(s) && c2.execute then RunNextTask(c2, env) else c2
  }

  /** `logitacker_processor_inject_run_next_task`. */
  function RunNextTask(c: Ctx, env: Env): (r: Ctx)
    requires WellFormed(c)
    ensures WellFormed(r)
    ensures c.retransmitCounter == 0 ==> r.retransmitCounter == 0
    decreases Pending(c), 4
  {
    if c.state != Idle then c
    else if c.cursor == |c.tasks| then
      TransferState(c.(cursor := 0, execute := false), env, ScriptSucceeded)
    else
      var task := c.tasks[c.cursor];
      StartTask(c.(currentTask := task, cursor := c.cursor + 1), env, task)
  }

  /** The `switch` of `run_next_task` on the type of the record just read. */
  function StartTask(c: Ctx, env: Env, task: Task): (r: Ctx)
    requires WellFormed(c)
    ensures WellFormed(r)
    ensures c.retransmitCounter == 0 ==> r.retransmitCounter == 0
    decreases if c.execute then |c.tasks| - c.cursor + 1 else 0, if c.execute then 1 else 3
  {
    match task
    case PressKeys(frames) => StartKeys(c, env, frames)
    case TypeString(frames) => StartKeys(c, env, frames)
    case TypeAltString(frames) => StartKeys(c, env, frames)
    case Delay(ms) => StartDelay(c, env, ms)
    case MouseReport(m, count) => StartMouse(c, env, m, count)
    case UnknownTask(_) => TransferState(c, env, Failed)
  }

  /** After a primed provider: WORKING, then the inter-frame timer. */
  function StartPrimed(f: Fetch, env: Env): (r: Ctx)
    requires WellFormed(f.ctx)
    ensures WellFormed(r)
    ensures f.ctx.retransmitCounter == 0 ==> r.retransmitCounter == 0
    decreases Pending(f.ctx), 1
  {
    if !f.ok then TransferState(f.ctx, env, Failed)
    else
      var c2 := TransferState(f.ctx, env, Working);
      c2.(effects := c2.effects + [TimerStart(c2.txDelayMs)])
  }

  /** `process_task_press`, `process_task_string` and `process_task_altstring`. */
  function StartKeys(c: Ctx, env: Env, frames: seq<Payload>): (r: Ctx)
    requires WellFormed(c)
    ensures WellFormed(r)
    ensures c.retransmitCounter == 0 ==> r.retransmitCounter == 0
    decreases if c.execute then |c.tasks| - c.cursor + 1 else 0, if c.execute then 0 else 2
  {
    StartPrimed(ProviderGetNext(c.(provider := KeyProvider(frames, 0))), env)
  }

  /** `process_task_mouse`. */
  function StartMouse(c: Ctx, env: Env, m: Option<MouseMap>, count: nat): (r: Ctx)
    requires WellFormed(c)
    ensures WellFormed(r)
    ensures c.retransmitCounter == 0 ==> r.retransmitCounter == 0
    decreases if c.execute then |c.tasks| - c.cursor + 1 else 0, if c.execute then 0 else 2
  {
    var isLightspeed := env.workmode != WorkmodeUnifying;
    match m
    case None => TransferState(c, env, Failed)
    case Some(mouseMap) =>
      StartPrimed(ProviderGetNext(c.(provider := MouseSlot, mouse := NewCtx(c.usbInject, mouseMap, count, isLightspeed))), env)
  }

  /** `process_task_delay`: no provider; a zero delay succeeds at once. */
  function StartDelay(c: Ctx, env: Env, ms: uint32): (r: Ctx)
    requires WellFormed(c)
    ensures WellFormed(r)
    ensures c.retransmitCounter == 0 ==> r.retransmitCounter == 0
    decreases if c.execute then |c.tasks| - c.cursor + 1 else 0, if c.execute then 0 else 2
  {
    var c1 := c.(provider := NoProvider);
    if ms == 0 then TransferState(c1, env, TaskSucceeded)
    else
      var c2 := TransferState(c1, env, Working);
      c2.(effects := c2.effects + [TimerStart(ms)])
  }

  /** The radio path of the timer handler: the checksum is applied to the staged payload, which is then written. */
  function RadioWrite(c: Ctx, env: Env): (r: Ctx)
  {
    var p := c.payload.(data := env.checksum(c.payload.data, c.payload.length));
    c.(payload := p, effects := c.effects + [EsbWrite(p)])
  }

  /** The keyboard branch of the timer handler; a failed write is only logged on either path. */
  function SendKeyboard(c: Ctx, env: Env): Ctx
  {
    if c.usbInject then c.(effects := c.effects + [UsbKeyboardWrite(c.payload.data)])
    else RadioWrite(c, env)
  }

  /** `processor_inject_timer_handler_func_`; `esbWriteOk` is the result of `nrf_esb_write_payload`. */
  function TimerHandler(c: Ctx, env: Env, esbWriteOk: bool): (r: Ctx)
    requires WellFormed(c)
    ensures WellFormed(r)
    ensures c.retransmitCounter == 0 ==> r.retransmitCounter == 0
  {
    if !(c.state == Working && c.execute) then c
    else match c.currentTask
      case Delay(_) => TransferState(c, env, TaskSucceeded)
      case PressKeys(_) => SendKeyboard(c, env)
      case TypeString(_) => SendKeyboard(c, env)
      case TypeAltString(_) => SendKeyboard(c, env)
      case MouseReport(_, _) =>
        if c.usbInject then c.(effects := c.effects + [UsbMouseWrite(c.payload.data)])
        else
          var c1 := RadioWrite(c, env);
          if esbWriteOk then c1 else TransferState(c1, env, Failed)
      case UnknownTask(_) => c
  }

  /** The TX_SUCCESS branch of the ESB handler. */
  function TxSucceeded(c: Ctx, env: Env): (r: Ctx)
    requires WellFormed(c)
    ensures WellFormed(r)
    ensures r.retransmitCounter == 0
  {
    var c1 := c.(retransmitCounter := 0);
    if c1.provider == NoProvider then TransferState(c1, env, Idle)
    else
      var f := ProviderGetNext(c1);
      if f.ok then f.ctx.(effects := f.ctx.effects + [TimerStart(f.ctx.txDelayMs)])
      else TransferState(f.ctx, env, TaskSucceeded)
  }

  /** `processor_inject_esb_handler_func_`: the retransmit ceiling is checked before the event is handled. */
  function EsbHandler(c: Ctx, env: Env, ev: EsbEvent): (r: Ctx)
    requires WellFormed(c)
    ensures WellFormed(r)
    ensures c.retransmitCounter == 0 ==> r.retransmitCounter == 0
  {
    var c1 := if c.retransmitCounter >= INJECT_RETRANSMIT_BEFORE_FAIL then TransferState(c, env, Failed) else c;
    match ev
    case TxFailed => TransferState(c1, env, TaskSucceeded)
    case TxSuccessAckPay => TxSucceeded(c1.(effects := c1.effects + [EsbFlushRx]), env)
    case TxSuccess => TxSucceeded(c1, env)
    case RxReceived => c1
  }

  /** IN_REPORT_DONE after the provider check: the next payload is sent at once, without the timer. */
  function UsbSendNext(c: Ctx, env: Env, esbWriteOk: bool): (r: Ctx)
    requires WellFormed(c) && c.provider != NoProvider
    ensures WellFormed(r)
    ensures c.retransmitCounter == 0 ==> r.retransmitCounter == 0
  {
    var f := ProviderGetNext(c);
    if f.ok then TimerHandler(f.ctx, env, esbWriteOk) else TransferState(f.ctx, env, TaskSucceeded)
  }

  /** The keyboard HID event handler; only IN_REPORT_DONE acts, and the LED trigger may defer the first frame. */
  function UsbKeyboardEvent(c: Ctx, env: Env, ev: UsbEvent, esbWriteOk: bool): (r: Ctx)
    requires WellFormed(c)
    ensures WellFormed(r)
    ensures c.retransmitCounter == 0 ==> r.retransmitCounter == 0
  {
    if ev != InReportDone then c
    else
      var c1 := c.(retransmitCounter := 0);
      if c1.provider == NoProvider then TransferState(c1, env, Idle)
      else if env.bootmode == BootmodeUsbInject && env.usbInjectTrigger == TriggerOnLedUpdate && !c1.usbInjectTriggered then
        c1.(effects := c1.effects + [TimerStart(env.ledTriggerPreDelayMs), LedGreenOn], usbInjectTriggered := true)
      else UsbSendNext(c1, env, esbWriteOk)
  }

  /** The mouse HID event handler; only IN_REPORT_DONE acts. */
  function UsbMouseEvent(c: Ctx, env: Env, ev: UsbEvent, esbWriteOk: bool): (r: Ctx)
    requires WellFormed(c)
    ensures WellFormed(r)
    ensures c.retransmitCounter == 0 ==> r.retransmitCounter == 0
  {
    if ev != InReportDone then c
    else
      var c1 := c.(retransmitCounter := 0);
      if c1.provider == NoProvider then TransferState(c1, env, Idle)
      else UsbSendNext(c1, env, esbWriteOk)
  }

  /** `logitacker_processor_inject_start_execution`. */
  function StartExecution(c: Ctx, env: Env, execute: bool): (r: Ctx)
    requires WellFormed(c)
    ensures WellFormed(r)
    ensures c.retransmitCounter == 0 ==> r.retransmitCounter == 0
  {
    var c1 := c.(execute := execute);
    if c1.execute then RunNextTask(c1, env) else c1
  }

  /** The parts of `processor_inject_init_func_` kept by the model. */
  function Init(c: Ctx, env: Env): (r: Ctx)
  {
    c.(txDelayMs := TxDelayMs(env.workmode), payload := ZeroPayload(), state := Idle, retransmitCounter := 0)
  }

  /** The parts of `processor_inject_deinit_func_` kept by the model. */
  function Deinit(c: Ctx): (r: Ctx)
  {
    c.(rfAddress := seq(|c.rfAddress|, i => 0), payload := ZeroPayload(), state := NotInitialized, retransmitCounter := 0)
  }

  /** `new_processor_inject`: a zeroed context (state 0 is IDLE) for the target address. */
  function NewProcessor(address: seq<byte>, mouse: MouseCtx, tasks: seq<Task>, triggered: bool): (r: Ctx)
    ensures WellFormed(r) && r.retransmitCounter == 0
  {
    Ctx(Idle, false, 0, NoProvider, mouse, ZeroPayload(), UnknownTask(0), tasks, 0, 0,
        UsbInjectAddress(address), address, triggered, [])
  }
}
