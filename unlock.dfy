/** The workflow functions of src/workflow/unlock.c as methods. They fill
    and zero char buffers in place as the C code does and call out through
    a Device, which records every call in its trace and answers from its
    script. Each method is proved to leave exactly the trace and the
    remaining script its function in UnlockSpec describes. */
module Unlock {
  import opened CText
  import opened UnlockSpec

  /** The outside world of the workflow: the screen, the keystore and the
      user, replaced by a recorded trace and a script of answers. */
  class Device {
    const config: Config
    var trace: seq<Event>
    var script: Script

    constructor (config: Config, script: Script)
      ensures this.config == config && this.script == script && trace == []
    {
      this.config := config;
      this.script := script;
      trace := [];
    }

    /** ui_screen_stack_pop_all. */
    method ScreenStackPopAll()
      modifies this
      ensures trace == old(trace) + [PopAll] && script == old(script)
    {
      trace := trace + [PopAll];
    }

    /** password_enter(title, buf): the next scripted string, written into
      buf as snprintf would; with nothing left to type the prompt stays up. */
    method PasswordEnter(title: string, buf: array<char>) returns (entered: bool)
      requires buf.Length == config.capacity
      modifies this, buf
      ensures trace == old(trace) + [Prompt(title)]
      ensures entered == (old(script.inputs) != [])
      ensures entered ==> (buf[..] == Written(old(buf[..]), old(script.inputs[0]))
                           && script == old(script).(inputs := old(script.inputs[1..])))
      ensures !entered ==> buf[..] == old(buf[..]) && script == old(script)
    {
      trace := trace + [Prompt(title)];
      entered := script.inputs != [];
      if entered {
        WriteString(buf, script.inputs[0]);
        script := script.(inputs := script.inputs[1..]);
      }
    }

    /** workflow_status_create(message, false). */
    method StatusCreate(message: string)
      modifies this
      ensures trace == old(trace) + [Status(message)] && script == old(script)
    {
      trace := trace + [Status(message)];
    }

    /** keystore_unlock(password, &remaining_attempts): the next scripted
      verdict, if there is one. */
    method KeystoreUnlock(password: string) returns (answered: bool, v: Verdict)
      modifies this
      ensures trace == old(trace) + [Verify(password)]
      ensures answered == (old(script.verdicts) != [])
      ensures answered ==> (v == old(script.verdicts[0])
                            && script == old(script).(verdicts := old(script.verdicts[1..])))
      ensures !answered ==> script == old(script)
    {
      trace := trace + [Verify(password)];
      answered := script.verdicts != [];
      v := Verdict(KeystoreOk, 0);
      if answered {
        v := script.verdicts[0];
        script := script.(verdicts := script.verdicts[1..]);
      }
    }

    /** workflow_start. */
    method WorkflowStart()
      modifies this
      ensures trace == old(trace) + [WorkflowStarted] && script == old(script)
    {
      trace := trace + [WorkflowStarted];
    }

    /** UG_ClearBuffer, image_lock or image_unlock, UG_SendBuffer. */
    method ShowImage(image: Image)
      modifies this
      ensures trace == old(trace) + [Picture(image)] && script == old(script)
    {
      trace := trace + [Picture(image)];
    }

    /** delay_ms. */
    method DelayMs(ms: nat)
      modifies this
      ensures trace == old(trace) + [Pause(ms)] && script == old(script)
    {
      trace := trace + [Pause(ms)];
    }

    /** keystore_unlock_bip39(passphrase). */
    method KeystoreUnlockBip39(passphrase: string) returns (ok: bool)
      modifies this
      ensures trace == old(trace) + [SeedUnlock(passphrase)] && script == old(script)
      ensures ok == config.seedUnlockSucceeds
    {
      trace := trace + [SeedUnlock(passphrase)];
      ok := config.seedUnlockSucceeds;
    }

    /** util_zero(buf, sizeof(buf)): every byte of the buffer becomes zero. */
    method UtilZero(name: BufferName, buf: array<char>)
      modifies this, buf
      ensures buf[..] == Zeros(buf.Length)
      ensures trace == old(trace) + [Zeroed(name, Zeros(buf.Length))] && script == old(script)
    {
      var i := 0;
      while i < buf.Length
        modifies buf
        invariant 0 <= i <= buf.Length
        invariant forall j :: 0 <= j < i ==> buf[j] == NUL
      {
        buf[i] := NUL;
        i := i + 1;
      }
      assert buf[..] == Zeros(buf.Length);
      trace := trace + [Zeroed(name, buf[..])];
    }
  }

  /** workflow_unlock_and_handle_error(password). */
  method WorkflowUnlockAndHandleError(d: Device, password: array<char>) returns (h: Handled)
    modifies d
    ensures var e := HandleError(old(CStr(password[..])), old(d.script));
            d.trace == old(d.trace) + e.events && d.script == e.rest && h == e.handled
  {
    var answered, v := d.KeystoreUnlock(CStr(password[..]));
    if !answered {
      return Halts(Stalled);
    }
    match v.result {
      case KeystoreOk =>
      case IncorrectPassword =>
        var msg := new char[MESSAGE_SIZE](_ => NUL);
        var text := WrongPasswordText(v.remainingAttempts);
        assert msg[..] == Zeros(MESSAGE_SIZE);
        WriteString(msg, text);
        WrongPasswordMessageReadBack(v.remainingAttempts);
        d.StatusCreate(CStr(msg[..]));
        Concat3(old(d.trace), [Verify(CStr(password[..]))], [Status(CStr(msg[..]))]);
      case MaxAttemptsExceeded =>
        d.StatusCreate(DEVICE_RESET_MESSAGE);
        d.WorkflowStart();
        Append2(old(d.trace) + [Verify(CStr(password[..]))], Status(DEVICE_RESET_MESSAGE), WorkflowStarted);
        Concat3(old(d.trace), [Verify(CStr(password[..]))], [Status(DEVICE_RESET_MESSAGE), WorkflowStarted]);
      case OtherError(_) =>
        return Halts(Aborted(KEYSTORE_FAILED_MESSAGE));
    }
    h := Returns(v.result);
  }

  /** The wrong-password text holds no NUL, so the message snprintf leaves
      in `char msg[100]` reads back whole. */
  lemma WrongPasswordMessageReadBack(remaining: uint8)
    ensures CStr(Written(Zeros(MESSAGE_SIZE), WrongPasswordText(remaining))) == WrongPasswordMessage(remaining)
  {
    var text := WrongPasswordText(remaining);
    var digits := Decimal(remaining);
    assert NUL !in digits by {
      forall i | 0 <= i < |digits| ensures digits[i] != NUL { }
    }
    assert NUL !in text;
    CStrOfWritten(Zeros(MESSAGE_SIZE), text);
    CStrOfPlain(Truncated(text, MESSAGE_SIZE));
  }

  /** Sequence bookkeeping for the trace. */
  lemma Regroup<T>(a: seq<T>, b: seq<T>, c: seq<T>, e: seq<T>)
    ensures a + b + (c + e) == a + (b + c + e)
  {
    Concat3(a, b, c + e);
    Concat3(b, c, e);
  }

  lemma Append2<T>(t: seq<T>, a: T, b: T)
    ensures t + [a] + [b] == t + [a, b]
  {
  }

  /** How one round of the confirmation loop ends. */
  datatype RoundEnd = Unanswered | Agreed | Disagreed

  /** One pass through the body of the loop in _get_mnemonic_passphrase:
      both prompts, the comparison and, on disagreement, the status. */
  method PassphraseRound(d: Device, entry: array<char>, repeat: array<char>) returns (r: RoundEnd)
    requires entry.Length == d.config.capacity && repeat.Length == d.config.capacity && entry != repeat
    modifies d, entry, repeat
    ensures d.script.verdicts == old(d.script.verdicts)
    ensures var inputs, cap := old(d.script.inputs), d.config.capacity;
            match r
            case Unanswered =>
              |inputs| < 2 && d.script.inputs == []
              && d.trace == old(d.trace) + (if inputs == [] then [Prompt(ENTER_PASSPHRASE_TITLE)] else PASSPHRASE_PROMPTS)
            case Agreed =>
              2 <= |inputs| && Entered(inputs[0], cap) == Entered(inputs[1], cap)
              && CStr(entry[..]) == Entered(inputs[0], cap)
              && d.script.inputs == inputs[2..] && d.trace == old(d.trace) + PASSPHRASE_PROMPTS
            case Disagreed =>
              2 <= |inputs| && Entered(inputs[0], cap) != Entered(inputs[1], cap)
              && d.script.inputs == inputs[2..] && d.trace == old(d.trace) + MISMATCH_ROUND
  {
    ghost var inputs := d.script.inputs;
    ghost var entryBefore, repeatBefore := entry[..], repeat[..];
    var ok := d.PasswordEnter(ENTER_PASSPHRASE_TITLE, entry);
    if !ok {
      return Unanswered;
    }
    ok := d.PasswordEnter(CONFIRM_PASSPHRASE_TITLE, repeat);
    Append2(old(d.trace), Prompt(ENTER_PASSPHRASE_TITLE), Prompt(CONFIRM_PASSPHRASE_TITLE));
    if !ok {
      return Unanswered;
    }
    CStrOfWritten(entryBefore, inputs[0]);
    CStrOfWritten(repeatBefore, inputs[1]);
    assert inputs[1..][1..] == inputs[2..];
    if CStr(entry[..]) == CStr(repeat[..]) {
      return Agreed;
    }
    d.StatusCreate(MISMATCH_MESSAGE);
    Concat3(old(d.trace), PASSPHRASE_PROMPTS, [Status(MISMATCH_MESSAGE)]);
    return Disagreed;
  }

  /** The loop of _get_mnemonic_passphrase: rounds until the two entries
      agree, leaving the agreed entry in `entry`. */
  method ConfirmLoop(d: Device, entry: array<char>, repeat: array<char>) returns (matched: bool)
    requires entry.Length == d.config.capacity && repeat.Length == d.config.capacity && entry != repeat
    modifies d, entry, repeat
    ensures var c, cap := Confirm(old(d.script.inputs), d.config.capacity), d.config.capacity;
            && matched == c.passphrase.Some?
            && d.script == old(d.script).(inputs := c.rest)
            && (!matched ==> d.trace == old(d.trace) + c.events)
            && (matched ==>
                  d.trace + [Zeroed(PassphraseBuffer, Zeros(cap)), Zeroed(PassphraseRepeatBuffer, Zeros(cap))] == old(d.trace) + c.events
                  && c.passphrase.value == Truncated(CStr(entry[..]), cap))
  {
    var cap := d.config.capacity;
    ghost var goal := Confirm(d.script.inputs, cap);
    ghost var t0 := d.trace;
    ghost var done: seq<Event> := [];
    ghost var round := d.script.inputs;
    while true
      invariant d.trace == t0 + done
      invariant d.script == old(d.script).(inputs := round)
      invariant Prefixed(done, Confirm(round, cap)) == goal
      decreases |round|
    {
      var r := PassphraseRound(d, entry, repeat);
      if r == Unanswered {
        assert d.trace == t0 + goal.events && goal.passphrase.None? && goal.rest == [] by {
          ConfirmStalls(done, round, cap);
          Concat3(t0, done, if round == [] then [Prompt(ENTER_PASSPHRASE_TITLE)] else PASSPHRASE_PROMPTS);
        }
        return false;
      }
      if r == Agreed {
        assert goal == Confirmation(done + PASSPHRASE_PROMPTS + [Zeroed(PassphraseBuffer, Zeros(cap)), Zeroed(PassphraseRepeatBuffer, Zeros(cap))],
                                    Some(Truncated(CStr(entry[..]), cap)), round[2..]) by {
          ConfirmMatch(done, round, cap);
        }
        assert d.trace + [Zeroed(PassphraseBuffer, Zeros(cap)), Zeroed(PassphraseRepeatBuffer, Zeros(cap))] == t0 + goal.events by {
          Concat3(t0, done + PASSPHRASE_PROMPTS, [Zeroed(PassphraseBuffer, Zeros(cap)), Zeroed(PassphraseRepeatBuffer, Zeros(cap))]);
          Concat3(t0, done, PASSPHRASE_PROMPTS);
        }
        return true;
      }
      assert goal == Prefixed(done + MISMATCH_ROUND, Confirm(round[2..], cap)) by {
        ConfirmMismatch(done, round, cap);
      }
      assert d.trace == t0 + (done + MISMATCH_ROUND) by {
        Concat3(t0, done, MISMATCH_ROUND);
      }
      done := done + MISMATCH_ROUND;
      round := round[2..];
    }
  }

  /** _get_mnemonic_passphrase(out). */
  method GetMnemonicPassphrase(d: Device, out: array<char>) returns (matched: bool)
    requires out.Length == d.config.capacity
    modifies d, out
    ensures var c := Confirm(old(d.script.inputs), d.config.capacity);
            d.trace == old(d.trace) + c.events
            && d.script == old(d.script).(inputs := c.rest)
            && matched == c.passphrase.Some?
            && (matched ==> CStr(out[..]) == c.passphrase.value)
  {
    var cap := d.config.capacity;
    var entry := new char[cap](_ => NUL);
    var repeat := new char[cap](_ => NUL);
    matched := ConfirmLoop(d, entry, repeat);
    if matched {
      ghost var outBefore := out[..];
      var passphrase := CStr(entry[..]);
      WriteString(out, passphrase);
      CStrOfCopy(outBefore, passphrase);
      ghost var before := d.trace;
      d.UtilZero(PassphraseBuffer, entry);
      d.UtilZero(PassphraseRepeatBuffer, repeat);
      Append2(before, Zeroed(PassphraseBuffer, Zeros(cap)), Zeroed(PassphraseRepeatBuffer, Zeros(cap)));
    }
  }

  /** The part of workflow_unlock_bip39 after the passphrase is known: the
      lock and unlock images, the seed unlock, and the zeroing of the
      passphrase buffer once it succeeded. */
  method UnlockSeed(d: Device, passphrase: array<char>) returns (stop: Stop)
    requires passphrase.Length == d.config.capacity
    modifies d, passphrase
    ensures var f := SeedUnlockFlow(d.config, old(CStr(passphrase[..])), old(d.script));
            d.trace == old(d.trace) + f.events && d.script == f.rest && stop == f.stop
    ensures stop == Returned ==> passphrase[..] == Zeros(d.config.capacity)
    ensures stop != Returned ==> passphrase[..] == old(passphrase[..])
  {
    d.ShowImage(LockImage);
    d.DelayMs(ANIMATION_DELAY_MS);
    d.ShowImage(UnlockImage);
    var ok := d.KeystoreUnlockBip39(CStr(passphrase[..]));
    if !ok {
      return Aborted(BIP39_FAILED_MESSAGE);
    }
    d.UtilZero(SeedPassphraseBuffer, passphrase);
    stop := Returned;
  }

  /** workflow_unlock_bip39. */
  method WorkflowUnlockBip39(d: Device) returns (stop: Stop)
    modifies d
    ensures var f := Bip39(d.config, old(d.script));
            d.trace == old(d.trace) + f.events && d.script == f.rest && stop == f.stop
  {
    var cap := d.config.capacity;
    var passphrase := new char[cap](_ => NUL);
    if d.config.passphraseEnabled {
      var matched := GetMnemonicPassphrase(d, passphrase);
      if !matched {
        return Stalled;
      }
      stop := UnlockSeed(d, passphrase);
      ghost var c := Confirm(old(d.script.inputs), cap);
      Concat3(old(d.trace), c.events, SeedUnlockFlow(d.config, c.passphrase.value, old(d.script).(inputs := c.rest)).events);
    } else {
      assert CStr(passphrase[..]) == "" by {
        assert passphrase[..][0] == NUL;
      }
      stop := UnlockSeed(d, passphrase);
    }
  }

  /** What _workflow_unlock does once workflow_unlock_enter_done is done
      with its password: call itself again, or unwind with the flow's end. */
  datatype Next = TryAgain | Finished(stop: Stop)

  /** workflow_unlock_enter_done(password), up to the recursive call to
      _workflow_unlock, which it hands back as TryAgain. */
  method WorkflowUnlockEnterDone(d: Device, password: array<char>) returns (next: Next)
    modifies d
    ensures match EnterDone(d.config, old(CStr(password[..])), old(d.script))
            case Retry(events, rest) =>
              next == TryAgain && d.trace == old(d.trace) + events && d.script == rest
            case Finish(f) =>
              next == Finished(f.stop) && d.trace == old(d.trace) + f.events && d.script == f.rest
  {
    var h := WorkflowUnlockAndHandleError(d, password);
    match h {
      case Halts(stop) =>
        next := Finished(stop);
      case Returns(result) =>
        if result == KeystoreOk {
          ghost var e := HandleError(CStr(password[..]), old(d.script));
          var stop := WorkflowUnlockBip39(d);
          Concat3(old(d.trace), e.events, Bip39(d.config, e.rest).events);
          next := Finished(stop);
        } else if result == IncorrectPassword {
          next := TryAgain;
        } else {
          next := Finished(Returned);
        }
    }
  }

  /** The body of _workflow_unlock up to its util_zero: clear the screen,
      prompt for the password into a fresh zeroed buffer, and hand it to
      workflow_unlock_enter_done. */
  method WorkflowUnlockFrame(d: Device) returns (password: array<char>, next: Next)
    modifies d
    ensures fresh(password) && password.Length == d.config.capacity
    ensures match Frame(d.config, old(d.script))
            case Retry(events, rest) =>
              next == TryAgain && d.trace == old(d.trace) + (OPENING + events) && d.script == rest
            case Finish(f) =>
              next == Finished(f.stop) && d.trace == old(d.trace) + (OPENING + f.events) && d.script == f.rest
  {
    var cap := d.config.capacity;
    ghost var s := d.script;
    d.ScreenStackPopAll();
    password := new char[cap](_ => NUL);
    assert password[..] == Zeros(cap);
    var entered := d.PasswordEnter(ENTER_PASSWORD_TITLE, password);
    Append2(old(d.trace), PopAll, Prompt(ENTER_PASSWORD_TITLE));
    if !entered {
      return password, Finished(Stalled);
    }
    assert CStr(password[..]) == Entered(s.inputs[0], cap) by {
      CStrOfWritten(Zeros(cap), s.inputs[0]);
    }
    next := WorkflowUnlockEnterDone(d, password);
    match EnterDone(d.config, Entered(s.inputs[0], cap), s.(inputs := s.inputs[1..])) {
      case Retry(events, _) => Concat3(old(d.trace), OPENING, events);
      case Finish(f) => Concat3(old(d.trace), OPENING, f.events);
    }
  }

  /** The descent through nested _workflow_unlock frames: each pass of the
      loop is one frame, which keeps its own password buffer, and a wrong
      password enters the next frame. `outer` is what the frames emitted
      before the innermost one settled on `inner`. */
  method EnterFrames(d: Device) returns (frames: seq<array<char>>, stop: Stop, ghost outer: seq<Event>, ghost inner: Flow)
    modifies d
    ensures forall i :: 0 <= i < |frames| ==> frames[i].Length == d.config.capacity && fresh(frames[i])
    ensures Nest(outer, |frames|, inner, d.config.capacity) == Rounds(d.config, old(d.script))
    ensures d.trace == old(d.trace) + (outer + inner.events) && d.script == inner.rest && stop == inner.stop
  {
    var cap := d.config.capacity;
    frames := [];
    ghost var t0 := d.trace;
    outer := [];
    NestEmpty(Rounds(d.config, d.script), cap);
    while true
      invariant d.trace == t0 + outer
      invariant Nest(outer, |frames|, Rounds(d.config, d.script), cap) == Rounds(d.config, old(d.script))
      invariant forall i :: 0 <= i < |frames| ==> frames[i].Length == cap && fresh(frames[i])
      decreases |d.script.inputs|
    {
      var password, next;
      ghost var after, last;
      password, next, after, last := NextFrame(d, t0, outer, |frames|);
      frames := frames + [password];
      outer := after;
      if next.Finished? {
        return frames, next.stop, outer, last;
      }
    }
  }

  /** One frame of the descent, and where the nest of frames stands after
      it: `done` are the events of the frames entered so far (after `t0`),
      `depth` their number. */
  method NextFrame(d: Device, ghost t0: seq<Event>, ghost done: seq<Event>, ghost depth: nat)
    returns (password: array<char>, next: Next, ghost after: seq<Event>, ghost inner: Flow)
    requires d.trace == t0 + done
    modifies d
    ensures fresh(password) && password.Length == d.config.capacity
    ensures next.Finished? ==>
              Nest(after, depth + 1, inner, d.config.capacity) == Nest(done, depth, Rounds(d.config, old(d.script)), d.config.capacity)
              && d.trace == t0 + (after + inner.events) && d.script == inner.rest && next.stop == inner.stop
    ensures next.TryAgain? ==>
              Nest(after, depth + 1, Rounds(d.config, d.script), d.config.capacity)
              == Nest(done, depth, Rounds(d.config, old(d.script)), d.config.capacity)
              && d.trace == t0 + after && |d.script.inputs| < |old(d.script.inputs)|
  {
    ghost var s := d.script;
    password, next := WorkflowUnlockFrame(d);
    ghost var step := Frame(d.config, s);
    RoundsStep(d.config, s, done, depth);
    if next.Finished? {
      inner := step.flow;
      after := done + OPENING;
      Regroup(t0, done, OPENING, inner.events);
    } else {
      after := done + OPENING + step.events;
      inner := Rounds(d.config, d.script);
      Regroup(t0, done, OPENING, step.events);
    }
  }

  /** _workflow_unlock, re-entered through workflow_unlock_enter_done, as a
      descent through the frames and, once the innermost one has returned,
      the frames zeroing their buffers from the innermost out. */
  method WorkflowUnlockRounds(d: Device) returns (stop: Stop)
    modifies d
    ensures var f := Rounds(d.config, old(d.script));
            d.trace == old(d.trace) + f.events && d.script == f.rest && stop == f.stop
  {
    var frames;
    ghost var outer, inner;
    frames, stop, outer, inner := EnterFrames(d);
    if stop == Returned {
      ZeroFrames(d, frames);
      Concat3(old(d.trace), outer + inner.events, Repeat(PasswordZeroed(d.config.capacity), |frames|));
    } else {
      assert outer + inner.events + [] == outer + inner.events;
    }
  }

  /** The util_zero at the end of each _workflow_unlock frame, run as the
      frames return: innermost first, each password buffer in turn. */
  method ZeroFrames(d: Device, frames: seq<array<char>>)
    requires forall i :: 0 <= i < |frames| ==> frames[i].Length == d.config.capacity
    modifies d, frames
    ensures d.trace == old(d.trace) + Repeat(PasswordZeroed(d.config.capacity), |frames|)
    ensures d.script == old(d.script)
    ensures forall i :: 0 <= i < |frames| ==> frames[i][..] == Zeros(d.config.capacity)
  {
    ghost var z := PasswordZeroed(d.config.capacity);
    var i := |frames|;
    while i > 0
      invariant 0 <= i <= |frames|
      invariant d.trace == old(d.trace) + Repeat(z, |frames| - i)
      invariant d.script == old(d.script)
      invariant forall j :: i <= j < |frames| ==> frames[j][..] == Zeros(d.config.capacity)
      decreases i
    {
      i := i - 1;
      d.UtilZero(PasswordBuffer, frames[i]);
      RepeatSnoc(z, |frames| - i - 1);
      Concat3(old(d.trace), Repeat(z, |frames| - i - 1), [z]);
    }
  }

  /** workflow_unlock. */
  method WorkflowUnlock(d: Device) returns (stop: Stop)
    modifies d
    ensures var f := UnlockFlow(d.config, old(d.script));
            d.trace == old(d.trace) + f.events && d.script == f.rest && stop == f.stop
  {
    if !d.config.memoryInitialized || !d.config.keystoreLocked {
      return Returned;
    }
    stop := WorkflowUnlockRounds(d);
  }
}
