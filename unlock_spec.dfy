/** The unlock workflow of src/workflow/unlock.c as functions over a scripted
    outside world. Every collaborator call the C code makes becomes an event
    of a trace; what the user types and what the keystore answers come from
    a script. Each function here gives the trace, the way the flow ends and
    the part of the script left over; the methods of module Unlock are
    proved to produce exactly these. */
module UnlockSpec {
  import opened CText

  type uint8 = x: int | 0 <= x < 256

  /** SET_PASSWORD_MAX_PASSWORD_LENGTH, the size of every secret buffer. */
  type Capacity = n: nat | 0 < n witness 1

  const ENTER_PASSWORD_TITLE: string := "Enter password"
  const ENTER_PASSPHRASE_TITLE: string := "Enter\nmnemonic passphrase"
  const CONFIRM_PASSPHRASE_TITLE: string := "Confirm\nmnemonic passphrase"
  const MISMATCH_MESSAGE: string := "Passphrases\ndo not match"
  const DEVICE_RESET_MESSAGE: string := "Device reset"
  const KEYSTORE_FAILED_MESSAGE: string := "keystore unlock failed"
  const BIP39_FAILED_MESSAGE: string := "bip39 unlock failed"
  /** `char msg[100]` in workflow_unlock_and_handle_error. */
  const MESSAGE_SIZE: nat := 100
  /** The hold between the lock and the unlock image, in milliseconds. */
  const ANIMATION_DELAY_MS: nat := 1200

  datatype Option<T> = None | Some(value: T)

  /** keystore_error_t: the three results the workflow tells apart, and
      every other code. */
  datatype KeystoreError =
    | KeystoreOk
    | IncorrectPassword
    | MaxAttemptsExceeded
    | OtherError(code: nat)

  /** One answer of keystore_unlock: the result and the remaining attempts
      it writes through its out-parameter. */
  datatype Verdict = Verdict(result: KeystoreError, remainingAttempts: uint8)

  /** The device state the workflow queries and the seed-unlock answer. */
  datatype Config = Config(
    memoryInitialized: bool,   // memory_is_initialized()
    keystoreLocked: bool,      // keystore_is_locked()
    passphraseEnabled: bool,   // memory_is_mnemonic_passphrase_enabled()
    seedUnlockSucceeds: bool,  // keystore_unlock_bip39(...)
    capacity: Capacity)

  /** What the user will type, one string per password_enter call, and what
      the keystore will answer, one verdict per keystore_unlock call. */
  datatype Script = Script(inputs: seq<string>, verdicts: seq<Verdict>)

  datatype BufferName =
    | PasswordBuffer          // password in _workflow_unlock
    | PassphraseBuffer        // mnemonic_passphrase in _get_mnemonic_passphrase
    | PassphraseRepeatBuffer  // mnemonic_passphrase_repeat in _get_mnemonic_passphrase
    | SeedPassphraseBuffer    // mnemonic_passphrase in workflow_unlock_bip39

  datatype Image = LockImage | UnlockImage

  /** One call out of the workflow, in the order it is made. */
  datatype Event =
    | PopAll                                         // ui_screen_stack_pop_all()
    | Prompt(title: string)                          // password_enter(title, ...)
    | Status(message: string)                        // workflow_status_create(message, false)
    | Verify(password: string)                       // keystore_unlock(password, ...)
    | WorkflowStarted                                // workflow_start()
    | Picture(image: Image)                          // image_lock / image_unlock, sent to the screen
    | Pause(ms: nat)                                 // delay_ms(ms)
    | SeedUnlock(passphrase: string)                 // keystore_unlock_bip39(passphrase)
    | Zeroed(buffer: BufferName, contents: seq<char>) // util_zero, with the contents it leaves

  /** How a flow ends: it returns to its caller, it aborts the firmware, or
      the script ran out and the device is still waiting for an answer. */
  datatype Stop = Returned | Aborted(message: string) | Stalled

  datatype Flow = Flow(events: seq<Event>, stop: Stop, rest: Script)

  /** The events of a flow preceded by some earlier ones. */
  function Then(events: seq<Event>, f: Flow): Flow
  {
    Flow(events + f.events, f.stop, f.rest)
  }

  /** The C string password_enter leaves in a buffer of the given capacity. */
  function Entered(s: string, cap: Capacity): string
  {
    CStr(Truncated(s, cap))
  }

  // ---------------------------------------------------------------- gate

  /** workflow_unlock returns at once unless the memory is initialized and
      the keystore is locked. */
  predicate GateCloses(memoryInitialized: bool, keystoreLocked: bool)
  {
    !memoryInitialized || !keystoreLocked
  }

  // ----------------------------------------------- attempt evaluator

  /** The text formatted into msg for a wrong password. */
  function WrongPasswordText(remaining: uint8): string
  {
    if remaining == 1 then "Wrong password\n1 try remains"
    else "Wrong password\n" + Decimal(remaining) + " tries remain"
  }

  /** The status shown for a wrong password: the text as snprintf leaves it
      in `char msg[100]`. */
  function WrongPasswordMessage(remaining: uint8): string
  {
    Truncated(WrongPasswordText(remaining), MESSAGE_SIZE)
  }

  /** What workflow_unlock_and_handle_error does next: return a result to
      its caller, or stop the whole flow. */
  datatype Handled = Returns(result: KeystoreError) | Halts(stop: Stop)

  datatype Handling = Handling(events: seq<Event>, handled: Handled, rest: Script)

  /** workflow_unlock_and_handle_error(password). */
  function HandleError(password: string, s: Script): (h: Handling)
    ensures h.rest.inputs == s.inputs
    ensures h.rest.verdicts == if s.verdicts == [] then [] else s.verdicts[1..]
    ensures 0 < |h.events| && h.events[0] == Verify(password)
    ensures h.handled.Halts? <==> s.verdicts == [] || s.verdicts[0].result.OtherError?
    ensures h.handled.Returns? ==> h.handled.result == s.verdicts[0].result
  {
    var call := [Verify(password)];
    if s.verdicts == [] then Handling(call, Halts(Stalled), s)
    else
      var v := s.verdicts[0];
      var rest := s.(verdicts := s.verdicts[1..]);
      match v.result
      case KeystoreOk => Handling(call, Returns(v.result), rest)
      case IncorrectPassword =>
        Handling(call + [Status(WrongPasswordMessage(v.remainingAttempts))], Returns(v.result), rest)
      case MaxAttemptsExceeded =>
        Handling(call + [Status(DEVICE_RESET_MESSAGE), WorkflowStarted], Returns(v.result), rest)
      case OtherError(_) => Handling(call, Halts(Aborted(KEYSTORE_FAILED_MESSAGE)), rest)
  }

  // --------------------------------------- passphrase confirmation loop

  datatype Confirmation = Confirmation(events: seq<Event>, passphrase: Option<string>, rest: seq<string>)

  function Prefixed(events: seq<Event>, c: Confirmation): Confirmation
  {
    Confirmation(events + c.events, c.passphrase, c.rest)
  }

  const PASSPHRASE_PROMPTS: seq<Event> := [Prompt(ENTER_PASSPHRASE_TITLE), Prompt(CONFIRM_PASSPHRASE_TITLE)]
  const MISMATCH_ROUND: seq<Event> := PASSPHRASE_PROMPTS + [Status(MISMATCH_MESSAGE)]

  /** _get_mnemonic_passphrase: prompt twice per round until both entries
      agree; on agreement the passphrase is what snprintf copies out, and
      both local buffers are zeroed. */
  function Confirm(inputs: seq<string>, cap: Capacity): (c: Confirmation)
    decreases |inputs|
  {
    if inputs == [] then Confirmation([Prompt(ENTER_PASSPHRASE_TITLE)], None, [])
    else if |inputs| == 1 then
      Confirmation(PASSPHRASE_PROMPTS, None, [])
    else
      var entry := Entered(inputs[0], cap);
      var repeat := Entered(inputs[1], cap);
      if entry == repeat then
        Confirmation(PASSPHRASE_PROMPTS + [Zeroed(PassphraseBuffer, Zeros(cap)), Zeroed(PassphraseRepeatBuffer, Zeros(cap))],
                     Some(Truncated(entry, cap)), inputs[2..])
      else
        Prefixed(MISMATCH_ROUND, Confirm(inputs[2..], cap))
  }

  // ------------------------------------------------------ seed unlock

  /** The part of workflow_unlock_bip39 after the passphrase is known. */
  function SeedUnlockFlow(cfg: Config, passphrase: string, s: Script): Flow
  {
    var shown := [Picture(LockImage), Pause(ANIMATION_DELAY_MS), Picture(UnlockImage), SeedUnlock(passphrase)];
    if cfg.seedUnlockSucceeds then
      Flow(shown + [Zeroed(SeedPassphraseBuffer, Zeros(cfg.capacity))], Returned, s)
    else
      Flow(shown, Aborted(BIP39_FAILED_MESSAGE), s)
  }

  /** workflow_unlock_bip39: the empty passphrase unless the passphrase
      option is enabled. */
  function Bip39(cfg: Config, s: Script): Flow
  {
    if cfg.passphraseEnabled then
      var c := Confirm(s.inputs, cfg.capacity);
      match c.passphrase
      case None => Flow(c.events, Stalled, s.(inputs := c.rest))
      case Some(p) => Then(c.events, SeedUnlockFlow(cfg, p, s.(inputs := c.rest)))
    else
      SeedUnlockFlow(cfg, "", s)
  }

  // ------------------------------------------------------- retry rounds

  /** What workflow_unlock_enter_done does after the evaluator: finish the
      flow, or (for a wrong password) call _workflow_unlock again. */
  datatype Step = Retry(events: seq<Event>, rest: Script) | Finish(flow: Flow)

  /** workflow_unlock_enter_done(password), without the recursive call. */
  function EnterDone(cfg: Config, password: string, s: Script): (r: Step)
    ensures r.Retry? ==> r.rest.inputs == s.inputs
  {
    var h := HandleError(password, s);
    match h.handled
    case Halts(stop) => Finish(Flow(h.events, stop, h.rest))
    case Returns(result) =>
      if result == KeystoreOk then Finish(Then(h.events, Bip39(cfg, h.rest)))
      else if result == IncorrectPassword then Retry(h.events, h.rest)
      else Finish(Flow(h.events, Returned, h.rest))
  }

  function PasswordZeroed(cap: Capacity): Event
  {
    Zeroed(PasswordBuffer, Zeros(cap))
  }

  function Repeat(e: Event, n: nat): seq<Event>
  {
    seq(n, _ => e)
  }

  /** A flow run inside `depth` frames of _workflow_unlock, after the
      `outer` events of those frames: each frame zeroes its password buffer
      once the flow has returned to it. */
  function Nest(outer: seq<Event>, depth: nat, inner: Flow, cap: Capacity): Flow
  {
    var zeroing := if inner.stop == Returned then Repeat(PasswordZeroed(cap), depth) else [];
    Flow(outer + inner.events + zeroing, inner.stop, inner.rest)
  }

  const OPENING: seq<Event> := [PopAll, Prompt(ENTER_PASSWORD_TITLE)]

  /** One frame of _workflow_unlock after its OPENING events: the password
      typed at the prompt goes to workflow_unlock_enter_done; with nothing
      typed the prompt stays up. */
  function Frame(cfg: Config, s: Script): (r: Step)
    ensures r.Retry? ==> |r.rest.inputs| < |s.inputs|
  {
    if s.inputs == [] then Finish(Flow([], Stalled, s))
    else EnterDone(cfg, Entered(s.inputs[0], cfg.capacity), s.(inputs := s.inputs[1..]))
  }

  /** _workflow_unlock, recursing through workflow_unlock_enter_done as the
      C code does. */
  function Rounds(cfg: Config, s: Script): Flow
    decreases |s.inputs|
  {
    var inner :=
      match Frame(cfg, s)
      case Finish(f) => f
      case Retry(events, rest) => Then(events, Rounds(cfg, rest));
    Nest(OPENING, 1, inner, cfg.capacity)
  }

  /** workflow_unlock. */
  function UnlockFlow(cfg: Config, s: Script): Flow
  {
    if GateCloses(cfg.memoryInitialized, cfg.keystoreLocked) then Flow([], Returned, s)
    else Rounds(cfg, s)
  }

  // ------------------------------------------------ facts the methods use

  /** Entering one more frame of _workflow_unlock. */
  lemma NestNest(outer: seq<Event>, depth: nat, frame: seq<Event>, f: Flow, cap: Capacity)
    ensures Nest(outer, depth, Nest(frame, 1, f, cap), cap) == Nest(outer + frame, depth + 1, f, cap)
  {
    var z := PasswordZeroed(cap);
    assert Repeat(z, 1) + Repeat(z, depth) == Repeat(z, depth + 1);
  }

  /** Outside every frame a flow is just itself. */
  lemma NestEmpty(f: Flow, cap: Capacity)
    ensures Nest([], 0, f, cap) == f
  {
    assert [] + f.events + [] == f.events;
  }

  /** Events a frame emits before a flow it runs belong to that frame's outer events. */
  lemma NestThen(outer: seq<Event>, depth: nat, events: seq<Event>, f: Flow, cap: Capacity)
    ensures Nest(outer, depth, Then(events, f), cap) == Nest(outer + events, depth, f, cap)
  {
    assert outer + (events + f.events) == outer + events + f.events;
  }

  /** One more frame of _workflow_unlock inside `depth` others. */
  lemma RoundsStep(cfg: Config, s: Script, done: seq<Event>, depth: nat)
    ensures match Frame(cfg, s)
            case Finish(f) =>
              Nest(done, depth, Rounds(cfg, s), cfg.capacity) == Nest(done + OPENING, depth + 1, f, cfg.capacity)
            case Retry(events, rest) =>
              Nest(done, depth, Rounds(cfg, s), cfg.capacity)
              == Nest(done + OPENING + events, depth + 1, Rounds(cfg, rest), cfg.capacity)
  {
    match Frame(cfg, s)
    case Finish(f) =>
      NestNest(done, depth, OPENING, f, cfg.capacity);
    case Retry(events, rest) =>
      NestNest(done, depth, OPENING, Then(events, Rounds(cfg, rest)), cfg.capacity);
      NestThen(done + OPENING, depth + 1, events, Rounds(cfg, rest), cfg.capacity);
  }

  /** The confirmation loop stalls at a prompt the script has no answer for. */
  lemma ConfirmStalls(done: seq<Event>, inputs: seq<string>, cap: Capacity)
    requires |inputs| < 2
    ensures Prefixed(done, Confirm(inputs, cap)).passphrase == None
    ensures Prefixed(done, Confirm(inputs, cap)).rest == []
    ensures inputs == [] ==> Prefixed(done, Confirm(inputs, cap)).events == done + [Prompt(ENTER_PASSPHRASE_TITLE)]
    ensures |inputs| == 1 ==> Prefixed(done, Confirm(inputs, cap)).events == done + PASSPHRASE_PROMPTS
  {
  }

  /** A round whose two entries differ shows the mismatch status and starts over. */
  lemma ConfirmMismatch(done: seq<Event>, inputs: seq<string>, cap: Capacity)
    requires 2 <= |inputs| && Entered(inputs[0], cap) != Entered(inputs[1], cap)
    ensures Prefixed(done, Confirm(inputs, cap)) == Prefixed(done + MISMATCH_ROUND, Confirm(inputs[2..], cap))
  {
    var next := Confirm(inputs[2..], cap);
    assert Confirm(inputs, cap) == Prefixed(MISMATCH_ROUND, next);
    assert done + (MISMATCH_ROUND + next.events) == (done + MISMATCH_ROUND) + next.events;
  }

  /** A round whose two entries agree ends the loop. */
  lemma ConfirmMatch(done: seq<Event>, inputs: seq<string>, cap: Capacity)
    requires 2 <= |inputs| && Entered(inputs[0], cap) == Entered(inputs[1], cap)
    ensures Prefixed(done, Confirm(inputs, cap))
         == Confirmation(done + PASSPHRASE_PROMPTS + [Zeroed(PassphraseBuffer, Zeros(cap)), Zeroed(PassphraseRepeatBuffer, Zeros(cap))],
                         Some(Truncated(Entered(inputs[0], cap), cap)), inputs[2..])
  {
  }

  /** Concatenation regrouped, for the trace bookkeeping. */
  lemma Concat3<T>(a: seq<T>, b: seq<T>, c: seq<T>)
    ensures a + b + c == a + (b + c)
  {
  }

  /** Zeroing the frames one at a time, innermost first. */
  lemma RepeatSnoc(e: Event, n: nat)
    ensures Repeat(e, n) + [e] == Repeat(e, n + 1)
  {
  }
}
