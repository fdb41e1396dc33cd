# LOGITacker injection engine and host command serialiser in Dafny

This project models the part of LOGITacker that carries out a keystroke and mouse
injection script. LOGITacker is nRF52 firmware that impersonates Logitech
wireless and USB input devices. The model covers:

- **The injection processor** (`logitacker_processor_inject.c`). It is a state
  machine over IDLE, WORKING, TASK_SUCCEEDED, SCRIPT_SUCCEEDED, FAILED and
  NOT_INITIALIZED. It reads tasks from a script queue and starts a payload
  provider for each one. It paces frames with a timer, and it reacts to radio
  (ESB) events and to USB HID `IN_REPORT_DONE` events.
  - `InjectSpec` gives the reference semantics as functions over a value
    `Ctx` of the whole processor context.
  - `InjectProcessor.Processor` is the context as a class with the C
    fields. Each method is proved to leave the object in exactly the state
    that the function of the same name computes.
  - `InjectProperties` proves the behaviour that the transitions, the
    dispatcher and the handlers promise. It includes the fact that the
    retransmit counter never leaves 0, so the retransmit ceiling is dead code.
- **The mouse payload provider** (`logitacker_tx_payload_provider_mouse.c`).
  It has a classic 10-byte encoder, a lightspeed 9-byte encoder, and a two-flag
  sequencer that emits the action frame and then one release frame.
  - `MouseFrames` holds the byte layouts and their decoders.
  - `MousePayloadProvider.MouseProvider` is the static provider context.
    Its methods fill a local array the way the C does.
- **The classic HID mouse packer** (`logitacker_mouse_map.c`). It is modelled
  as pure functions over its 10-byte buffer.
- **The host-side command serialiser** (`controller.rs`). It covers
  `build_report`, the `cmd_*` constructors, and the colon-separated hex
  address parser, with a round-trip proof for the address format.

Collaborators are not modelled as code:

- the script engine, the radio, the timer, the LEDs and the global configuration;
- the keyboard payload providers, the checksum and the mouse-map decoder.

Instead, the processor keeps a task sequence with a read cursor. Every call into
a collaborator is appended to an effect log (`Effect`), and the configuration is
the parameter `Env`.

The `count` field of the mouse provider context is a `uint32_t *`. The encoders
only test it against NULL, step it and reset it to NULL. It is modelled as a
pointer counted in 32-bit words, with 0 standing for NULL.

## Model

| member | source | states |
|---|---|---|
| Wire.WriteFrame | logitacker/logitacker_tx_payload_provider_mouse.c:107-109 | after the frame is copied in, the payload's length is the frame's, its pipe is 0, its data starts with the frame, and the rest of the buffer is unchanged |
| Wire.BigEndian16RoundTrip | controller.rs:70-71 | the high and low bytes of a 16-bit two's-complement value, read back big-endian, give the value |
| MouseMapReport.ToHidReport | logitacker/logitacker_mouse_map.c:11-31 | the returned `uint32_t` is `0xC200` plus the click bits shifted to bits 16-17; it does not depend on x, y or scroll |
| MouseMapReport.ClickByteBits | logitacker/logitacker_mouse_map.c:20-24 | bit 0 of byte 2 is the left click and bit 1 the right click, so both give 3 |
| MouseMapReport.HidReportBufferLayout | logitacker/logitacker_mouse_map.c:12-27 | the buffer is 10 bytes; bytes 0, 1, 3 and 9 are 0x00, 0xC2, 0, 0; byte 2 is the click code; bytes 7 and 8 are the vertical and horizontal scroll |
| MouseMapReport.HidReportVelocity | logitacker/logitacker_mouse_map.c:16-18 | bytes 4-6 read little-endian are `(y & 0xFFF) << 12 \| (x & 0xFFF)`, and its two 12-bit halves give back x and y modulo 4096 |
| MouseMapReport.HidReportBufferPeriodic | logitacker/logitacker_mouse_map.c:16 | movements that differ by a multiple of 4096 give the same buffer |
| MouseFrames.SubstituteBelowBound | logitacker/logitacker_tx_payload_provider_mouse.c:90-99 | a movement at or below the bound is sent unchanged |
| MouseFrames.SubstituteAboveBound | logitacker/logitacker_tx_payload_provider_mouse.c:164-173 | a movement above the bound becomes `bound - v`, which is negative |
| MouseFrames.ClickCodeRoundTrip | logitacker/logitacker_tx_payload_provider_mouse.c:64-73 | the click byte is 0, 1, 2 or 3 for neither, left, right or both, and a receiver decodes both buttons back from it |
| MouseFrames.ClassicFrameLayout | logitacker/logitacker_tx_payload_provider_mouse.c:50-73 | the classic frame is 10 bytes; byte 0 is 0x00, byte 1 is 0xC2, byte 2 is the click code, and byte 3 and bytes 7-9 are 0 (no scroll is written) |
| MouseFrames.ClassicVelocityField | logitacker/logitacker_tx_payload_provider_mouse.c:89-104 | bytes 4-6 are the little-endian 24-bit value `(y & 0xFFF) << 12 \| (x & 0xFFF)` of the substituted movements, and they decode to the 12-bit wraps of those movements |
| MouseFrames.ClassicRoundTrip | logitacker/logitacker_tx_payload_provider_mouse.c:41-114 | for movements in -2048..1000, decoding the classic frame gives back x, y and both buttons |
| MouseFrames.ClassicJustAboveBound | logitacker/logitacker_tx_payload_provider_mouse.c:92-94 | x = 1001 arrives as -1 |
| MouseFrames.LightspeedFrameLayout | logitacker/logitacker_tx_payload_provider_mouse.c:125-187 | the lightspeed frame is 9 bytes; byte 0 is 0x02, byte 1 the click code, bytes 2 and 8 are 0, bytes 3-4 and 5-6 read back big-endian as the substituted x and y, and byte 7 is the low byte of the vertical scroll |
| MouseFrames.LightspeedRoundTrip | logitacker/logitacker_tx_payload_provider_mouse.c:116-197 | for movements at or below 16383, decoding the lightspeed frame gives back x, y and both buttons |
| MousePayloadProvider.EncodeClassic | logitacker/logitacker_tx_payload_provider_mouse.c:50-104 | filling the local array field by field yields exactly the classic frame |
| MousePayloadProvider.EncodeLightspeed | logitacker/logitacker_tx_payload_provider_mouse.c:125-187 | filling the local array field by field yields exactly the lightspeed frame |
| MousePayloadProvider.MouseProvider.constructor | logitacker/logitacker_tx_payload_provider_mouse.c:25-26 | the static context starts zeroed, with a NULL count pointer |
| MousePayloadProvider.MouseProvider.New | logitacker/logitacker_tx_payload_provider_mouse.c:276-292 | the static context is re-initialised with the map, the count pointer and the USB flag; a release is appended; both flags are cleared; the lightspeed or classic `get_next` is chosen |
| MousePayloadProvider.MouseProvider.InjectGetNext | logitacker/logitacker_tx_payload_provider_mouse.c:41-114 | with a NULL count the call returns false and leaves the payload alone; otherwise the classic frame is staged with length 10 and pipe 0, and the pointer steps down one word |
| MousePayloadProvider.MouseProvider.InjectGetNextLightspeed | logitacker/logitacker_tx_payload_provider_mouse.c:116-197 | the same as the classic case, with the 9-byte lightspeed frame |
| MousePayloadProvider.MouseProvider.InjectReset | logitacker/logitacker_tx_payload_provider_mouse.c:199-201 | the count pointer becomes NULL and nothing else changes |
| MousePayloadProvider.MouseProvider.GetNext | logitacker/logitacker_tx_payload_provider_mouse.c:218-235 | the first call sets the combo flag and encodes; a later call with a pending release sets the release flag and encodes; any other call returns false |
| MousePayloadProvider.MouseProvider.GetNextLightspeed | logitacker/logitacker_tx_payload_provider_mouse.c:237-252 | the same sequencing over the lightspeed encoder |
| MousePayloadProvider.MouseProvider.Next | logitacker/logitacker_tx_payload_provider_mouse.c:288 | the vtable's `p_get_next` runs the variant that `New` selected |
| MousePayloadProvider.MouseProvider.Reset | logitacker/logitacker_tx_payload_provider_mouse.c:255-259 | the vtable's `p_reset` nulls the count pointer and keeps the flags |
| MousePayloadProvider.NewCtxStartsFresh | logitacker/logitacker_tx_payload_provider_mouse.c:279-285 | after construction `append_release` is true, neither flag is set, and the count pointer is the one given |
| MousePayloadProvider.InjectStepIffNotNull | logitacker/logitacker_tx_payload_provider_mouse.c:42-43 | the inner encoder produces a frame if and only if the count pointer is not NULL; without a frame the payload is untouched, and with one the payload is the encoded frame |
| MousePayloadProvider.TwoIdenticalFrames | logitacker/logitacker_tx_payload_provider_mouse.c:221-233 | from a fresh context with a pointer of at least two words, the first call sets only the combo flag and the second also sets the release flag; both produce the same bytes; the third produces nothing and changes nothing |
| MousePayloadProvider.ExhaustedStaysExhausted | logitacker/logitacker_tx_payload_provider_mouse.c:221-229 | once both flags are set, a call returns false and leaves the context and the payload untouched |
| MousePayloadProvider.ResetSilencesProvider | logitacker/logitacker_tx_payload_provider_mouse.c:199-201 | the next call after a reset produces no frame and leaves the payload untouched, yet it still sets its flags |
| MousePayloadProvider.NullNeverProduces | logitacker/logitacker_tx_payload_provider_mouse.c:42-44 | from a NULL count pointer, no number of calls produces a frame |
| MousePayloadProvider.ResetNeverProduces | logitacker/logitacker_tx_payload_provider_mouse.c:199-201 | once the provider is reset, no number of later calls produces a frame |
| MousePayloadProvider.AtMostTwoFrames | logitacker/logitacker_tx_payload_provider_mouse.c:218-235 | from a fresh context with a pointer of at least two words, any number of calls yields min(n, 2) frames |
| MousePayloadProvider.ExhaustedNeverProduces | logitacker/logitacker_tx_payload_provider_mouse.c:221-229 | from an exhausted context, no number of calls produces a frame |
| MousePayloadProvider.PointerSteppedToNull | logitacker/logitacker_tx_payload_provider_mouse.c:111 | a count pointer one word above NULL reaches NULL after the first frame, so the release frame is not produced although its flag is set |
| InjectSpec.TxDelayMs | logitacker/logitacker_processor_inject.c:273-289 | the inter-frame delay is 8 ms in the Unifying work mode and 1 ms in every other mode |
| InjectSpec.ResetProvider | logitacker/logitacker_processor_inject.c:485 | resetting the provider touches only the provider slot, the mouse context and the effect log |
| InjectSpec.AfterInjectAction | logitacker/logitacker_processor_inject.c:496-506 | the after-inject mode switch is recorded as mode-switch effects and changes nothing else in the context |
| InjectSpec.ProviderGetNext | logitacker/logitacker_processor_inject.c:686 | fetching the next frame touches only the provider slot, the mouse context and the staged payload |
| InjectSpec.Abort | logitacker/logitacker_processor_inject.c:476-509 | the FAILED case ends in IDLE with execution off, the cursor rewound, the counter 0 and the queue kept |
| InjectSpec.FinishScript | logitacker/logitacker_processor_inject.c:510-525 | the SCRIPT_SUCCEEDED case ends in IDLE with the queue flushed; `execute` and the counter are left alone |
| InjectSpec.SwitchState | logitacker/logitacker_processor_inject.c:453-529 | the switch keeps the cursor within the queue and leaves the counter 0 or unchanged; TASK_SUCCEEDED keeps the queue, the cursor and `execute`; IDLE clears `execute` |
| InjectSpec.TransferState | logitacker/logitacker_processor_inject.c:448-539 | every transition keeps the cursor within the queue and never makes a zero counter non-zero |
| InjectSpec.RunNextTask | logitacker/logitacker_processor_inject.c:721-770 | reading the next task keeps the cursor within the queue and never makes a zero counter non-zero |
| InjectSpec.StartTask | logitacker/logitacker_processor_inject.c:746-769 | the dispatch on the record type keeps the cursor within the queue and never makes a zero counter non-zero |
| InjectSpec.StartPrimed | logitacker/logitacker_processor_inject.c:686-697 | the tail after priming a provider keeps the cursor within the queue and never makes a zero counter non-zero |
| InjectSpec.StartKeys | logitacker/logitacker_processor_inject.c:636-657 | the keyboard starters keep the cursor within the queue and never make a zero counter non-zero |
| InjectSpec.StartMouse | logitacker/logitacker_processor_inject.c:661-698 | the mouse starter keeps the cursor within the queue and never makes a zero counter non-zero |
| InjectSpec.StartDelay | logitacker/logitacker_processor_inject.c:702-718 | the delay starter keeps the cursor within the queue and never makes a zero counter non-zero |
| InjectSpec.TimerHandler | logitacker/logitacker_processor_inject.c:371-445 | the timer handler keeps the cursor within the queue and never makes a zero counter non-zero |
| InjectSpec.TxSucceeded | logitacker/logitacker_processor_inject.c:557-580 | TX_SUCCESS always leaves the counter at 0 |
| InjectSpec.EsbHandler | logitacker/logitacker_processor_inject.c:541-589 | the radio handler keeps the cursor within the queue and never makes a zero counter non-zero |
| InjectSpec.UsbSendNext | logitacker/logitacker_processor_inject.c:160-171 | sending the next USB frame keeps the cursor within the queue and never makes a zero counter non-zero |
| InjectSpec.UsbKeyboardEvent | logitacker/logitacker_processor_inject.c:142-177 | the keyboard HID handler keeps the cursor within the queue and never makes a zero counter non-zero |
| InjectSpec.UsbMouseEvent | logitacker/logitacker_processor_inject.c:206-229 | the mouse HID handler keeps the cursor within the queue and never makes a zero counter non-zero |
| InjectSpec.StartExecution | logitacker/logitacker_processor_inject.c:772-786 | starting or pausing keeps the cursor within the queue and never makes a zero counter non-zero |
| InjectSpec.NewProcessor | logitacker/logitacker_processor_inject.c:788-820 | a new processor has its cursor within the queue and a zero counter |
| InjectProcessor.IsUsbTarget | logitacker/logitacker_processor_inject.c:798-804 | the loop decides USB injection if and only if all five address bytes are 0 |
| InjectProcessor.LightspeedWorkmode | logitacker/logitacker_processor_inject.c:667-676 | the lightspeed encoder is chosen in every work mode except Unifying |
| InjectProcessor.Processor.constructor | logitacker/logitacker_processor_inject.c:788-820 | the object's state is `NewProcessor` of the target address |
| InjectProcessor.Processor.Init | logitacker/logitacker_processor_inject.c:270-289 | the object's new state is `Init` of its old state: the tx delay is set by work mode, the payload is zeroed, the state is IDLE and the counter is 0 |
| InjectProcessor.Processor.Deinit | logitacker/logitacker_processor_inject.c:345-369 | the new state is `Deinit` of the old: the address and payload are zeroed, the state is NOT_INITIALIZED and the counter is 0 |
| InjectProcessor.Processor.ResetProvider | logitacker/logitacker_processor_inject.c:485 | the new state is `ResetProvider` of the old |
| InjectProcessor.Processor.GetNext | logitacker/logitacker_processor_inject.c:686 | the new state and the boolean are `ProviderGetNext` of the old state |
| InjectProcessor.Processor.AfterInject | logitacker/logitacker_processor_inject.c:496-506 | the new state is `AfterInjectAction` of the old |
| InjectProcessor.Processor.StopTimer | logitacker/logitacker_processor_inject.c:481-482 | the new state is `StopTimer` of the old |
| InjectProcessor.Processor.SwitchState | logitacker/logitacker_processor_inject.c:453-529 | the new state is `SwitchState` of the old; both flags are raised exactly for IDLE and TASK_SUCCEEDED |
| InjectProcessor.Processor.EnterFailed | logitacker/logitacker_processor_inject.c:476-509 | the new state is `Abort` of the old |
| InjectProcessor.Processor.EnterScriptSucceeded | logitacker/logitacker_processor_inject.c:510-525 | the new state is `FinishScript` of the old |
| InjectProcessor.Processor.TransferState | logitacker/logitacker_processor_inject.c:448-539 | the new state is `TransferState` of the old |
| InjectProcessor.Processor.RunNextTask | logitacker/logitacker_processor_inject.c:721-770 | the new state is `RunNextTask` of the old |
| InjectProcessor.Processor.StartTask | logitacker/logitacker_processor_inject.c:746-769 | the new state is `StartTask` of the old |
| InjectProcessor.Processor.ProcessKeyTask | logitacker/logitacker_processor_inject.c:636-657 | the new state is `StartKeys` of the old |
| InjectProcessor.Processor.StartProvider | logitacker/logitacker_processor_inject.c:686-697 | the new state is `StartPrimed` of the old state's first fetch |
| InjectProcessor.Processor.ProcessMouseTask | logitacker/logitacker_processor_inject.c:661-698 | the new state is `StartMouse` of the old |
| InjectProcessor.Processor.ProcessDelayTask | logitacker/logitacker_processor_inject.c:702-718 | the new state is `StartDelay` of the old |
| InjectProcessor.Processor.WriteRadio | logitacker/logitacker_processor_inject.c:396-398 | the new state is `RadioWrite` of the old |
| InjectProcessor.Processor.TimerHandler | logitacker/logitacker_processor_inject.c:371-445 | the new state is `TimerHandler` of the old |
| InjectProcessor.Processor.SendKeyboardReport | logitacker/logitacker_processor_inject.c:381-406 | the new state is `SendKeyboard` of the old |
| InjectProcessor.Processor.EsbHandler | logitacker/logitacker_processor_inject.c:541-589 | the new state is `EsbHandler` of the old |
| InjectProcessor.Processor.OnTxSuccess | logitacker/logitacker_processor_inject.c:557-580 | the new state is `TxSucceeded` of the old |
| InjectProcessor.Processor.SendNextOverUsb | logitacker/logitacker_processor_inject.c:160-171 | the new state is `UsbSendNext` of the old |
| InjectProcessor.Processor.HidKeyboardEvent | logitacker/logitacker_processor_inject.c:133-191 | the new state is `UsbKeyboardEvent` of the old |
| InjectProcessor.Processor.HidMouseEvent | logitacker/logitacker_processor_inject.c:198-243 | the new state is `UsbMouseEvent` of the old |
| InjectProcessor.Processor.StartExecution | logitacker/logitacker_processor_inject.c:772-786 | the new state is `StartExecution` of the old |
| InjectProperties.TransferToSameStateIsNoOp | logitacker/logitacker_processor_inject.c:449 | a transition to the current state changes nothing |
| InjectProperties.EnterIdle | logitacker/logitacker_processor_inject.c:454-462 | entering IDLE stops the timer, zeroes the counter, resets the provider once and clears `execute`, so no next task runs; queue, cursor, task and payload stay |
| InjectProperties.TaskSucceededReturnsToIdle | logitacker/logitacker_processor_inject.c:464-475 | TASK_SUCCEEDED stops the timer, zeroes the counter and resets the provider into IDLE; it then runs the next task if and only if `execute` is set; the state is never TASK_SUCCEEDED afterwards |
| InjectProperties.FailedAborts | logitacker/logitacker_processor_inject.c:476-509 | FAILED ends in IDLE with execution off, the queue rewound, the provider reset once and the on-fail mode switch performed; the exact effect sequence is given |
| InjectProperties.ScriptSucceededFlushes | logitacker/logitacker_processor_inject.c:510-525 | SCRIPT_SUCCEEDED ends in IDLE with the queue flushed and the on-success switch performed; timer, counter, provider and payload are left alone |
| InjectProperties.ActiveEnumerationFallsThrough | logitacker/logitacker_processor_inject.c:502-505 | the ACTIVE_ENUMERATION option enters active and then passive enumeration of the same address |
| InjectProperties.RunNextTaskNeedsIdle | logitacker/logitacker_processor_inject.c:728-731 | no task is read unless the state is IDLE |
| InjectProperties.ExhaustedQueueSucceeds | logitacker/logitacker_processor_inject.c:732-744 | an exhausted queue is rewound, execution stops, and SCRIPT_SUCCEEDED flushes it and performs the on-success switch |
| InjectProperties.UnknownTaskFails | logitacker/logitacker_processor_inject.c:746-769 | an unknown task type aborts through FAILED |
| InjectProperties.ZeroDelaySucceedsAtOnce | logitacker/logitacker_processor_inject.c:702-710 | a zero delay drops the provider, then stops the timer, zeroes the counter and returns to IDLE at once; it reads the next task if and only if `execute` is set |
| InjectProperties.DelayArmsTimer | logitacker/logitacker_processor_inject.c:711-717 | a non-zero delay reaches WORKING with no provider and the timer armed for the delay |
| InjectProperties.KeyTaskStarts | logitacker/logitacker_processor_inject.c:636-657 | a keyboard task with a first frame reaches WORKING with that frame staged and the timer armed; one without aborts through FAILED |
| InjectProperties.MouseTaskStarts | logitacker/logitacker_processor_inject.c:661-698 | an unmappable mouse task and a NULL count pointer both abort; otherwise the first frame for the work mode is staged in WORKING with the timer armed |
| InjectProperties.RunNextTaskSettles | logitacker/logitacker_processor_inject.c:721-770 | every dispatch round from IDLE ends either in WORKING with the timer just armed or in IDLE with execution stopped |
| InjectProperties.ZeroDelayScriptSucceeds | logitacker/logitacker_processor_inject.c:707-709 | a queue of zero delays runs to the end in one call: one timer stop per task, then the flush and the on-success switch |
| InjectProperties.TimerIgnoredUnlessWorking | logitacker/logitacker_processor_inject.c:372 | the timer does nothing unless the state is WORKING and `execute` is set |
| InjectProperties.TimerEndsDelay | logitacker/logitacker_processor_inject.c:374-379 | the timer of a delay task goes to TASK_SUCCEEDED, and what follows is settled |
| InjectProperties.ChecksumOnlyOnRadio | logitacker/logitacker_processor_inject.c:381-430 | a USB write sends the staged data as it is; a radio write first applies the checksum and writes that payload |
| InjectProperties.MouseRadioFailureIsFatal | logitacker/logitacker_processor_inject.c:417-425 | a failed radio write of a mouse frame aborts the script |
| InjectProperties.KeyboardRadioFailureIsLogged | logitacker/logitacker_processor_inject.c:396-404 | a failed radio write of a keyboard frame changes nothing beyond a successful one |
| InjectProperties.CeilingForcesFailure | logitacker/logitacker_processor_inject.c:542-546 | a counter at or above 10 forces FAILED before the event is handled, so RX_RECEIVED and TX_FAILED both end in IDLE with execution stopped, the queue rewound and the counter 0 |
| InjectProperties.TxFailedCountsAsSuccess | logitacker/logitacker_processor_inject.c:549-553 | TX_FAILED ends the current task as succeeded |
| InjectProperties.RxReceivedIgnored | logitacker/logitacker_processor_inject.c:582-587 | RX_RECEIVED changes nothing |
| InjectProperties.TxSuccessPacesNextFrame | logitacker/logitacker_processor_inject.c:554-580 | TX_SUCCESS and TX_SUCCESS_ACK_PAY zero the counter; then a missing provider goes to IDLE, a new frame re-arms the timer, and an exhausted provider goes to TASK_SUCCEEDED; ACK_PAY also flushes RX |
| InjectProperties.UsbOtherEventsIgnored | logitacker/logitacker_processor_inject.c:137-141 | HID events other than IN_REPORT_DONE change nothing |
| InjectProperties.LedTriggerDefersInjection | logitacker/logitacker_processor_inject.c:152-159 | in USB-inject boot mode with the LED trigger armed, the first IN_REPORT_DONE only starts the pre-delay timer, lights the LED and marks the trigger |
| InjectProperties.UsbSendsWithoutDelay | logitacker/logitacker_processor_inject.c:160-171 | otherwise a fetched frame is sent at once through the timer handler, without the timer; an exhausted provider goes to TASK_SUCCEEDED |
| InjectProperties.InitSetsDelay | logitacker/logitacker_processor_inject.c:270-289 | init sets the delay to 8 ms in Unifying mode and 1 ms otherwise, zeroes the payload, enters IDLE and zeroes the counter; the queue is kept |
| InjectProperties.DeinitKeepsQueue | logitacker/logitacker_processor_inject.c:345-369 | deinit enters NOT_INITIALIZED and zeroes the counter and the address; the queue and cursor are kept |
| InjectProperties.NewProcessorStartsIdle | logitacker/logitacker_processor_inject.c:788-804 | a new processor is IDLE, not executing, with no provider, and injects over USB if and only if the address is all zero |
| InjectProperties.StartExecutionSettles | logitacker/logitacker_processor_inject.c:772-786 | pausing only clears `execute`; starting from IDLE ends settled |
| InjectProperties.CounterStaysZero | logitacker/logitacker_processor_inject.c:542 | over any sequence of timer, radio, USB, start, init and deinit events, the retransmit counter stays 0 and below the ceiling |
| InjectProperties.CeilingUnreachable | logitacker/logitacker_processor_inject.c:542-553 | after any event sequence from a new processor, TX_FAILED takes the plain TASK_SUCCEEDED path; the ceiling branch never fires |
| Controller.BuildReport | controller.rs:60-66 | the report is 65 bytes: byte 0 is 0, byte 1 the type, byte 2 the command, then the arguments, then zeros |
| Controller.ReportDeterminesArgs | controller.rs:64 | two argument lists of the same length that give the same report are equal, so a report determines its arguments |
| Controller.CmdMouse | controller.rs:68-75 | type 0x02, command 0x15; bytes 3-4 and 5-6 read back big-endian as x and y; bytes 7 and 8 are the buttons; the rest is 0 |
| Controller.CmdInject | controller.rs:77-79 | type 0x02, command 0x17, no arguments |
| Controller.CmdClear | controller.rs:99-101 | type 0x02, command 0x14, no arguments |
| Controller.CmdPress | controller.rs:103-105 | type 0x02, command 0x12, the key as the one argument |
| Controller.StripColons | controller.rs:82 | removing colons leaves no colon and cannot lengthen the string; from a hex-and-colon string it leaves only hex digits |
| Controller.StripColonsKeepsOthers | controller.rs:82 | removing colons keeps every other character as often as it occurs; with `StripColonsAppend`, which splits the result over concatenation, this fixes the result completely |
| Controller.ParseChunks | controller.rs:83-86 | `(n+1)/2` bytes; each pair of digits gives the byte `16*hi + lo`; an odd last digit is read alone |
| Controller.ParseTarget | controller.rs:82-86 | the number of address bytes is half the number of hex digits, rounded up |
| Controller.CmdInjectTarget | controller.rs:81-88 | type 0x02, command 0x16, and the parsed address as the arguments |
| Controller.CmdPassiveEnum | controller.rs:90-97 | the same parse under command 0x19 |
| Controller.TargetRoundTrip | controller.rs:81-88 | for any list of two-digit hex groups joined by colons, the parsed address is exactly the groups' values in order |
| Controller.ColonsDoNotDelimit | controller.rs:82 | colons do not delimit bytes: joining two valid targets with or without a colon gives the same parsed address |

The lemmas without a row serve other proofs and state nothing new about the source:
- `InjectProperties.ResetProviderOnly`, `KeyTaskSettles` and `MouseTaskSettles` are steps toward `RunNextTaskSettles`;
- `InjectProperties.TimerStops` is the effect list that `ZeroDelayScriptSucceeds` states;
- the splitting and byte-order lemmas in `Wire`, `MouseMapReport`, `MouseFrames` and `Controller` support the round trips.

`InjectSpec.StopTimer` is the `app_timer_stop` step with the counter cleared (logitacker_processor_inject.c:456-457 and 481-482). It has no contract of its own; `InjectProcessor.Processor.StopTimer` is proved against it.

## Left out

- InjectSpec.AfterInjectAction: `logitacker_enter_mode_discovery`, `logitacker_enter_mode_active_enum` and `logitacker_enter_mode_passive_enum` are not part of this model. They are recorded as effects, and the model assumes they leave the inject context unchanged. If switching mode deinitialises this processor, then the claims that FAILED and SCRIPT_SUCCEEDED end in IDLE hold only for the `Continue` option. Those are `FailedAborts`, `ScriptSucceededFlushes`, `ExhaustedQueueSucceeds`, `CeilingForcesFailure`, and the `RunNextTaskSettles` and `ZeroDelayScriptSucceeds` results built on them.

- Radio, timer and LED hardware calls (`nrf_esb_*`, `app_timer_*`, `bsp_board_led_on`) are not executed. Each appears as an `Effect` record in the order the code makes it. The result of `nrf_esb_write_payload` is a parameter of the timer handler.
- Radio setup and tear-down in init and deinit are left out: channel tables, pipes, TX power and the no-ack flag. These are driver configuration. Only `tx_delay_ms`, the payload, `state`, `retransmit_counter` and the address are kept.
- `NRF_LOG_*` logging is left out. It has no effect on the state.
- `logitacker_unifying_payload_update_checksum` is not part of this model. It is the function parameter `Env.checksum`.
- The string, altstring and press payload providers are not part of this model. A keyboard task carries the frames its provider would produce. `get_next` hands them out in order, and `reset` rewinds to the first one.
- `logitacker_mouse_map_get_from_data` is not part of this model. A mouse task carries its result: `None` for NULL. The mouse provider keeps a copy of the map rather than a pointer to it; nothing writes to the map, so the copy cannot go stale.
- The script engine is not part of this model. Its queue is a `seq<Task>` with a read cursor. Rewinding sets the cursor to 0, and flushing empties the queue.
- `g_logitacker_global_config` and the runtime flag `usb_inject_script_triggered` are not part of this model. The first is the parameter `Env`. The second is a field of the processor.
- The device lookup `logitacker_devices_get_device` in the constructor is not modelled. It only fills `p_device`, which the model does not read.
- `processor_inject_bsp_handler_func_` has an empty body. The timer/ESB/USB entry points that only cast `p_ctx` and forward are the dispatch through the vtable in `logitacker_processor.h`. The model calls the handlers directly.
- OUT_REPORT_READY, SET_BOOT_PROTO and SET_REPORT_PROTO only log. They are modelled as no-ops.
- The initial `current_task` after the constructor's `memset` is `UnknownTask(0)`. The enum of task types is not shown, so the zero record gets no named kind.
- The ESB payload data buffer is assumed to hold 32 bytes, the size of `nrf_esb_payload_t` data in the SDK configuration the firmware uses, which is not shown.
- The tx delay follows the code, which looks only at the work mode; it does not look at whether injection goes over USB.
- InjectProperties.CeilingForcesFailure: requires the state not to be FAILED already. Otherwise `transfer_state(FAILED)` is a no-op under the same-state rule, and the claim would be false.
- The `HIDDeviceController` I/O is not modelled: `new`, `open_device`, `write_report` with its hex dump, `print_available_devices`, and the unused mpsc channel. These only talk to the HID device or the console.
- The wrappers `move_mouse`, `passive_enum`, `inject`, `clear`, `set_target` and `set_inject_target` are not modelled. Each only passes one `cmd_*` report to `write_report`. Both `set_target` and `set_inject_target` send the `cmd_inject_target` (0x16) report.
- Controller.CmdInjectTarget: requires the target to consist of ASCII hex digits and colons, and to parse to at most 62 bytes. Otherwise `unwrap` or the slice in `build_report` panics. A leading `+`, which `from_str_radix` would accept, is excluded too.
- Controller.CmdPassiveEnum: the same requires as `CmdInjectTarget`, for the same reasons.
- Controller.BuildReport: requires at most 62 argument bytes; a longer slice panics.
- The declaration of `logitacker_mouse_map_to_hid_report` in its header has an extra `p_report` parameter. The model follows the definition.
