/** What the unlock workflow promises, proved of the functions in
    UnlockSpec: the wrong-password messages, the confirmation loop stopping
    at the first agreeing pair, the retry rounds, the seed unlock, which
    buffers are zeroed, and the end-to-end scenarios. Counts of events are
    taken with multisets: multiset(events)[e] is how often e occurs. */
module UnlockProperties {
  import opened CText
  import opened UnlockSpec

  // ------------------------------------------------ wrong-password message

  const WRONG_PASSWORD_HEAD: string := "Wrong password\n"
  const TRIES_REMAIN_TAIL: string := " tries remain"
  const ONE_TRY_REMAINS: string := "Wrong password\n1 try remains"

  /** Any uint8 count fits `char msg[100]`: snprintf never truncates. */
  lemma {:induction false} WrongPasswordMessageFits(n: uint8)
    ensures WrongPasswordMessage(n) == WrongPasswordText(n)
    ensures |WrongPasswordMessage(n)| < MESSAGE_SIZE
  {
    DecimalLength(n);
  }

  /** The singular form for one remaining try; for every other count,
      including 0, the plural form, whose digits read back as the count. */
  lemma WrongPasswordMessageShape(n: uint8)
    ensures n == 1 ==> WrongPasswordMessage(n) == ONE_TRY_REMAINS
    ensures n != 1 ==>
      var m := WrongPasswordMessage(n);
      && m == WRONG_PASSWORD_HEAD + Decimal(n) + TRIES_REMAIN_TAIL
      && |WRONG_PASSWORD_HEAD| + |TRIES_REMAIN_TAIL| < |m|
      && DigitsValue(m[|WRONG_PASSWORD_HEAD|..|m| - |TRIES_REMAIN_TAIL|]) == n
  {
    WrongPasswordMessageFits(n);
    if n != 1 {
      var m := WrongPasswordMessage(n);
      assert m[|WRONG_PASSWORD_HEAD|..|m| - |TRIES_REMAIN_TAIL|] == Decimal(n);
      DecimalRoundTrip(n);
    }
  }

  /** Different counts give different messages. */
  lemma WrongPasswordMessageDistinct(a: uint8, b: uint8)
    requires a != b
    ensures WrongPasswordMessage(a) != WrongPasswordMessage(b)
  {
    WrongPasswordMessageShape(a);
    WrongPasswordMessageShape(b);
    if a == 1 || b == 1 {
      assert |ONE_TRY_REMAINS| == |WRONG_PASSWORD_HEAD| + |TRIES_REMAIN_TAIL|;
    }
  }

  // ---------------------------------------- passphrase confirmation loop

  /** The strings typed in a sequence of rounds, each an entry and its
      confirmation. */
  function Flatten(pairs: seq<(string, string)>): (inputs: seq<string>)
    ensures |inputs| == 2 * |pairs|
  {
    if pairs == [] then [] else [pairs[0].0, pairs[0].1] + Flatten(pairs[1..])
  }

  /** Whether a round's two entries agree, as STREQ compares the buffers
      password_enter filled. */
  predicate Agree(pair: (string, string), cap: Capacity)
  {
    Entered(pair.0, cap) == Entered(pair.1, cap)
  }

  /** The events of k rounds that disagreed. */
  function Mismatches(k: nat): seq<Event>
  {
    if k == 0 then [] else MISMATCH_ROUND + Mismatches(k - 1)
  }

  /** One disagreeing round: each of its three events once. */
  lemma MismatchRoundCount()
    ensures multiset(MISMATCH_ROUND)[Status(MISMATCH_MESSAGE)] == 1
    ensures multiset(MISMATCH_ROUND)[Prompt(ENTER_PASSPHRASE_TITLE)] == 1
    ensures multiset(MISMATCH_ROUND)[Prompt(CONFIRM_PASSPHRASE_TITLE)] == 1
  {
    assert |ENTER_PASSPHRASE_TITLE| != |CONFIRM_PASSPHRASE_TITLE|;
    assert multiset(MISMATCH_ROUND)
        == multiset{Prompt(ENTER_PASSPHRASE_TITLE), Prompt(CONFIRM_PASSPHRASE_TITLE), Status(MISMATCH_MESSAGE)};
  }

  /** k disagreeing rounds show k mismatch statuses and 2k prompts. */
  lemma {:induction false} MismatchesCount(k: nat)
    ensures multiset(Mismatches(k))[Status(MISMATCH_MESSAGE)] == k
    ensures multiset(Mismatches(k))[Prompt(ENTER_PASSPHRASE_TITLE)] == k
    ensures multiset(Mismatches(k))[Prompt(CONFIRM_PASSPHRASE_TITLE)] == k
    ensures forall e :: e in Mismatches(k) ==> e in MISMATCH_ROUND
  {
    if k > 0 {
      MismatchesCount(k - 1);
      MismatchRoundCount();
      assert multiset(Mismatches(k)) == multiset(MISMATCH_ROUND) + multiset(Mismatches(k - 1));
    }
  }

  /** Both local buffers of _get_mnemonic_passphrase, zeroed. */
  function PassphraseZeroing(cap: Capacity): seq<Event>
  {
    [Zeroed(PassphraseBuffer, Zeros(cap)), Zeroed(PassphraseRepeatBuffer, Zeros(cap))]
  }

  /** A first round that disagrees shows the mismatch status and starts over. */
  lemma ConfirmAfterDisagreement(pair: (string, string), inputs: seq<string>, cap: Capacity)
    requires !Agree(pair, cap)
    ensures Confirm([pair.0, pair.1] + inputs, cap) == Prefixed(MISMATCH_ROUND, Confirm(inputs, cap))
  {
    assert ([pair.0, pair.1] + inputs)[2..] == inputs;
  }

  /** A first round that agrees ends the loop with its entry. */
  lemma ConfirmAtAgreement(agreed: (string, string), rest: seq<string>, cap: Capacity)
    requires Agree(agreed, cap)
    ensures Confirm([agreed.0, agreed.1] + rest, cap)
         == Confirmation(PASSPHRASE_PROMPTS + PassphraseZeroing(cap), Some(Entered(agreed.0, cap)), rest)
  {
    assert ([agreed.0, agreed.1] + rest)[2..] == rest;
  }

  /** The loop stops at the first round whose entries agree: one mismatch
      status for each earlier round, the agreed entry copied out, both
      buffers zeroed, and the inputs after that round left unread. */
  lemma {:induction false} ConfirmStopsAtFirstAgreement(pairs: seq<(string, string)>, agreed: (string, string), rest: seq<string>, cap: Capacity)
    requires forall i :: 0 <= i < |pairs| ==> !Agree(pairs[i], cap)
    requires Agree(agreed, cap)
    ensures Confirm(Flatten(pairs) + [agreed.0, agreed.1] + rest, cap)
         == Confirmation(Mismatches(|pairs|) + PASSPHRASE_PROMPTS + PassphraseZeroing(cap),
                         Some(Entered(agreed.0, cap)), rest)
  {
    if pairs == [] {
      assert Flatten(pairs) + [agreed.0, agreed.1] + rest == [agreed.0, agreed.1] + rest;
      ConfirmAtAgreement(agreed, rest, cap);
    } else {
      var later := Flatten(pairs[1..]) + [agreed.0, agreed.1] + rest;
      var first := [pairs[0].0, pairs[0].1];
      assert Flatten(pairs) + [agreed.0, agreed.1] + rest == first + later by {
        Concat3(first, Flatten(pairs[1..]), [agreed.0, agreed.1]);
        Concat3(first, Flatten(pairs[1..]) + [agreed.0, agreed.1], rest);
      }
      var done := Mismatches(|pairs| - 1) + PASSPHRASE_PROMPTS + PassphraseZeroing(cap);
      assert Confirm(later, cap) == Confirmation(done, Some(Entered(agreed.0, cap)), rest) by {
        ConfirmStopsAtFirstAgreement(pairs[1..], agreed, rest, cap);
      }
      assert Confirm(first + later, cap) == Prefixed(MISMATCH_ROUND, Confirm(later, cap)) by {
        ConfirmAfterDisagreement(pairs[0], later, cap);
      }
      assert MISMATCH_ROUND + done == Mismatches(|pairs|) + PASSPHRASE_PROMPTS + PassphraseZeroing(cap) by {
        Concat3(MISMATCH_ROUND, Mismatches(|pairs| - 1) + PASSPHRASE_PROMPTS, PassphraseZeroing(cap));
        Concat3(MISMATCH_ROUND, Mismatches(|pairs| - 1), PASSPHRASE_PROMPTS);
      }
    }
  }

  /** With no agreeing round the loop reads every input and is left waiting
      at a prompt: one mismatch status per round, nothing copied out. */
  lemma {:induction false} ConfirmWithoutAgreement(pairs: seq<(string, string)>, rest: seq<string>, cap: Capacity)
    requires forall i :: 0 <= i < |pairs| ==> !Agree(pairs[i], cap)
    requires |rest| < 2
    ensures Confirm(Flatten(pairs) + rest, cap)
         == Confirmation(Mismatches(|pairs|)
                         + (if rest == [] then [Prompt(ENTER_PASSPHRASE_TITLE)] else PASSPHRASE_PROMPTS),
                         None, [])
  {
    if pairs != [] {
      var later := Flatten(pairs[1..]) + rest;
      assert Flatten(pairs) + rest == [pairs[0].0, pairs[0].1] + later by {
        Concat3([pairs[0].0, pairs[0].1], Flatten(pairs[1..]), rest);
      }
      var last := if rest == [] then [Prompt(ENTER_PASSPHRASE_TITLE)] else PASSPHRASE_PROMPTS;
      assert Confirm(later, cap) == Confirmation(Mismatches(|pairs| - 1) + last, None, []) by {
        ConfirmWithoutAgreement(pairs[1..], rest, cap);
      }
      assert Confirm([pairs[0].0, pairs[0].1] + later, cap) == Prefixed(MISMATCH_ROUND, Confirm(later, cap)) by {
        ConfirmAfterDisagreement(pairs[0], later, cap);
      }
      Concat3(MISMATCH_ROUND, Mismatches(|pairs| - 1), last);
    }
  }

  /** The confirmation loop emits only its own prompts, its mismatch status
      and the zeroing of its own two buffers. */
  predicate PassphraseEvent(e: Event)
  {
    e == Prompt(ENTER_PASSPHRASE_TITLE) || e == Prompt(CONFIRM_PASSPHRASE_TITLE) || e == Status(MISMATCH_MESSAGE)
    || (e.Zeroed? && (e.buffer == PassphraseBuffer || e.buffer == PassphraseRepeatBuffer))
  }

  lemma {:induction false} ConfirmEventsAreOwn(inputs: seq<string>, cap: Capacity)
    ensures forall e :: e in Confirm(inputs, cap).events ==> PassphraseEvent(e)
    decreases |inputs|
  {
    if 2 <= |inputs| && Entered(inputs[0], cap) != Entered(inputs[1], cap) {
      ConfirmEventsAreOwn(inputs[2..], cap);
    }
  }

  // ---------------------------------------------------------- seed unlock

  /** What the seed-unlock step itself emits. */
  predicate SeedEvent(e: Event)
  {
    e.Picture? || e.Pause? || e.SeedUnlock? || (e.Zeroed? && e.buffer == SeedPassphraseBuffer)
  }

  /** workflow_unlock_bip39 emits only the confirmation loop's events and
      its own, so no password prompt, keystore call, reset or password
      zeroing. */
  lemma Bip39EventsAreOwn(cfg: Config, s: Script)
    ensures forall e :: e in Bip39(cfg, s).events ==> PassphraseEvent(e) || SeedEvent(e)
  {
    if cfg.passphraseEnabled {
      ConfirmEventsAreOwn(s.inputs, cfg.capacity);
    }
  }

  /** None of these is an event of the password rounds. */
  lemma NotAPasswordRoundEvent(e: Event, cap: Capacity)
    requires PassphraseEvent(e) || SeedEvent(e)
    ensures e != Prompt(ENTER_PASSWORD_TITLE) && !e.Verify? && e != WorkflowStarted && e != PasswordZeroed(cap)
  {
    assert ENTER_PASSWORD_TITLE[5] != ENTER_PASSPHRASE_TITLE[5];
    assert |ENTER_PASSWORD_TITLE| != |CONFIRM_PASSPHRASE_TITLE|;
  }

  const ANIMATION: seq<Event> := [Picture(LockImage), Pause(ANIMATION_DELAY_MS), Picture(UnlockImage)]

  /** Without the passphrase option nothing is prompted: the lock image, the
      pause, the unlock image, then one seed unlock with the empty
      passphrase; failure aborts, success zeroes the passphrase buffer. */
  lemma SeedUnlockWithoutPassphrase(cfg: Config, s: Script)
    requires !cfg.passphraseEnabled
    ensures var f := Bip39(cfg, s);
            && f.events[..4] == ANIMATION + [SeedUnlock("")]
            && f.rest == s
            && (cfg.seedUnlockSucceeds ==>
                  f.events == ANIMATION + [SeedUnlock(""), Zeroed(SeedPassphraseBuffer, Zeros(cfg.capacity))] && f.stop == Returned)
            && (!cfg.seedUnlockSucceeds ==> f.events == ANIMATION + [SeedUnlock("")] && f.stop == Aborted(BIP39_FAILED_MESSAGE))
  {
  }

  /** With the passphrase option the seed unlock gets the first agreed
      entry, after the confirmation loop has zeroed both of its buffers. */
  lemma SeedUnlockWithPassphrase(cfg: Config, s: Script, pairs: seq<(string, string)>, agreed: (string, string), rest: seq<string>)
    requires cfg.passphraseEnabled
    requires s.inputs == Flatten(pairs) + [agreed.0, agreed.1] + rest
    requires forall i :: 0 <= i < |pairs| ==> !Agree(pairs[i], cfg.capacity)
    requires Agree(agreed, cfg.capacity)
    ensures Bip39(cfg, s)
         == Then(Mismatches(|pairs|) + PASSPHRASE_PROMPTS + PassphraseZeroing(cfg.capacity),
                 SeedUnlockFlow(cfg, Entered(agreed.0, cfg.capacity), s.(inputs := rest)))
  {
    ConfirmStopsAtFirstAgreement(pairs, agreed, rest, cfg.capacity);
  }

  // --------------------------------------------------------- retry rounds

  /** The verdicts of the first k rounds were all "incorrect password". */
  predicate WrongUntil(s: Script, k: nat)
  {
    k <= |s.inputs| && k <= |s.verdicts| && forall i :: 0 <= i < k ==> s.verdicts[i].result == IncorrectPassword
  }

  /** The script from round k on. */
  function Skip(s: Script, k: nat): Script
    requires k <= |s.inputs| && k <= |s.verdicts|
  {
    Script(s.inputs[k..], s.verdicts[k..])
  }

  /** Round i with a wrong password: the screen reset and prompt, the
      check of the typed password, and the wrong-password status. */
  function WrongRound(s: Script, i: nat, cap: Capacity): seq<Event>
    requires i < |s.inputs| && i < |s.verdicts|
  {
    OPENING + [Verify(Entered(s.inputs[i], cap)), Status(WrongPasswordMessage(s.verdicts[i].remainingAttempts))]
  }

  function WrongRounds(s: Script, k: nat, cap: Capacity): seq<Event>
    requires k <= |s.inputs| && k <= |s.verdicts|
  {
    if k == 0 then [] else WrongRounds(s, k - 1, cap) + WrongRound(s, k - 1, cap)
  }

  /** One wrong password: the round's events, then a fresh round. */
  lemma RoundRejected(cfg: Config, s: Script, k: nat)
    requires WrongUntil(s, k + 1)
    ensures Frame(cfg, Skip(s, k)) == Retry(WrongRound(s, k, cfg.capacity)[2..], Skip(s, k + 1))
  {
    var t := Skip(s, k);
    assert t.inputs[0] == s.inputs[k] && t.verdicts[0] == s.verdicts[k];
    assert t.inputs[1..] == s.inputs[k + 1..] && t.verdicts[1..] == s.verdicts[k + 1..];
  }

  /** After k wrong passwords the flow is k frames deep, each having shown
      its prompt and its wrong-password status, with round k to come. */
  lemma {:induction false} RoundsAfterWrongPasswords(cfg: Config, s: Script, k: nat)
    requires WrongUntil(s, k)
    ensures Rounds(cfg, s) == Nest(WrongRounds(s, k, cfg.capacity), k, Rounds(cfg, Skip(s, k)), cfg.capacity)
  {
    var cap := cfg.capacity;
    if k == 0 {
      assert Skip(s, 0) == s;
      NestEmpty(Rounds(cfg, s), cap);
    } else {
      var t, done := Skip(s, k - 1), WrongRounds(s, k - 1, cap);
      var events := WrongRound(s, k - 1, cap)[2..];
      assert Rounds(cfg, s) == Nest(done, k - 1, Rounds(cfg, t), cap) by {
        RoundsAfterWrongPasswords(cfg, s, k - 1);
      }
      assert Nest(done, k - 1, Rounds(cfg, t), cap) == Nest(done + OPENING + events, k, Rounds(cfg, Skip(s, k)), cap) by {
        RoundRejected(cfg, s, k - 1);
        RoundsStep(cfg, t, done, k - 1);
      }
      assert WrongRounds(s, k, cap) == done + OPENING + events by {
        assert WrongRound(s, k - 1, cap) == OPENING + events;
        Concat3(done, OPENING, events);
      }
    }
  }

  /** Round k is the last one: the flow is k + 1 frames deep around what
      that round does after its OPENING. */
  lemma RoundFinishes(cfg: Config, s: Script, k: nat)
    requires !GateCloses(cfg.memoryInitialized, cfg.keystoreLocked)
    requires WrongUntil(s, k) && Frame(cfg, Skip(s, k)).Finish?
    ensures UnlockFlow(cfg, s)
         == Nest(WrongRounds(s, k, cfg.capacity) + OPENING, k + 1, Frame(cfg, Skip(s, k)).flow, cfg.capacity)
  {
    var cap := cfg.capacity;
    var done := WrongRounds(s, k, cap);
    assert Rounds(cfg, s) == Nest(done, k, Rounds(cfg, Skip(s, k)), cap) by {
      RoundsAfterWrongPasswords(cfg, s, k);
    }
    RoundsStep(cfg, Skip(s, k), done, k);
  }

  /** The frame of a round whose password the keystore accepts. */
  lemma FrameAccepted(cfg: Config, s: Script, k: nat)
    requires k < |s.inputs| && k < |s.verdicts| && s.verdicts[k].result == KeystoreOk
    ensures Frame(cfg, Skip(s, k)) == Finish(Then([Verify(Entered(s.inputs[k], cfg.capacity))], Bip39(cfg, Skip(s, k + 1))))
  {
    var t := Skip(s, k);
    assert t.inputs[0] == s.inputs[k] && t.verdicts[0] == s.verdicts[k];
    assert t.inputs[1..] == s.inputs[k + 1..] && t.verdicts[1..] == s.verdicts[k + 1..];
  }

  /** The frame of a round answered with "maximum attempts exceeded". */
  lemma FrameReset(cfg: Config, s: Script, k: nat)
    requires k < |s.inputs| && k < |s.verdicts| && s.verdicts[k].result == MaxAttemptsExceeded
    ensures Frame(cfg, Skip(s, k))
         == Finish(Flow([Verify(Entered(s.inputs[k], cfg.capacity)), Status(DEVICE_RESET_MESSAGE), WorkflowStarted],
                        Returned, Skip(s, k + 1)))
  {
    var t := Skip(s, k);
    assert t.inputs[0] == s.inputs[k] && t.verdicts[0] == s.verdicts[k];
    assert t.inputs[1..] == s.inputs[k + 1..] && t.verdicts[1..] == s.verdicts[k + 1..];
  }

  /** The frame of a round answered with any other keystore error. */
  lemma FrameRefused(cfg: Config, s: Script, k: nat)
    requires k < |s.inputs| && k < |s.verdicts| && s.verdicts[k].result.OtherError?
    ensures Frame(cfg, Skip(s, k))
         == Finish(Flow([Verify(Entered(s.inputs[k], cfg.capacity))], Aborted(KEYSTORE_FAILED_MESSAGE), Skip(s, k + 1)))
  {
    var t := Skip(s, k);
    assert t.inputs[0] == s.inputs[k] && t.verdicts[0] == s.verdicts[k];
    assert t.inputs[1..] == s.inputs[k + 1..] && t.verdicts[1..] == s.verdicts[k + 1..];
  }

  /** An accepted password leads to the seed unlock inside k + 1 frames;
      its events hold no further password prompt, keystore call or reset. */
  lemma PasswordAccepted(cfg: Config, s: Script, k: nat)
    requires !GateCloses(cfg.memoryInitialized, cfg.keystoreLocked)
    requires WrongUntil(s, k) && k < |s.inputs| && k < |s.verdicts| && s.verdicts[k].result == KeystoreOk
    ensures var head := WrongRounds(s, k, cfg.capacity) + OPENING + [Verify(Entered(s.inputs[k], cfg.capacity))];
            UnlockFlow(cfg, s) == Nest(head, k + 1, Bip39(cfg, Skip(s, k + 1)), cfg.capacity)
    ensures forall e :: e in Bip39(cfg, Skip(s, k + 1)).events ==>
              e != Prompt(ENTER_PASSWORD_TITLE) && !e.Verify? && e != WorkflowStarted
  {
    var cap := cfg.capacity;
    var head := WrongRounds(s, k, cap) + OPENING;
    var call := [Verify(Entered(s.inputs[k], cap))];
    var seed := Bip39(cfg, Skip(s, k + 1));
    assert UnlockFlow(cfg, s) == Nest(head, k + 1, Then(call, seed), cap) by {
      FrameAccepted(cfg, s, k);
      RoundFinishes(cfg, s, k);
    }
    NestThen(head, k + 1, call, seed, cap);
    Bip39EventsAreOwn(cfg, Skip(s, k + 1));
    forall e | e in seed.events
      ensures e != Prompt(ENTER_PASSWORD_TITLE) && !e.Verify? && e != WorkflowStarted
    {
      NotAPasswordRoundEvent(e, cap);
    }
  }

  /** Attempts exhausted: one "Device reset" status, one workflow_start,
      and after it only the k + 1 frames zeroing their password buffers. */
  lemma AttemptsExhausted(cfg: Config, s: Script, k: nat)
    requires !GateCloses(cfg.memoryInitialized, cfg.keystoreLocked)
    requires WrongUntil(s, k) && k < |s.inputs| && k < |s.verdicts| && s.verdicts[k].result == MaxAttemptsExceeded
    ensures UnlockFlow(cfg, s)
         == Flow(WrongRounds(s, k, cfg.capacity) + OPENING
                 + [Verify(Entered(s.inputs[k], cfg.capacity)), Status(DEVICE_RESET_MESSAGE), WorkflowStarted]
                 + Repeat(PasswordZeroed(cfg.capacity), k + 1),
                 Returned, Skip(s, k + 1))
  {
    FrameReset(cfg, s, k);
    RoundFinishes(cfg, s, k);
  }

  /** Any other verdict aborts with "keystore unlock failed"; no frame
      zeroes its buffer, since Abort does not return. */
  lemma VerdictRefused(cfg: Config, s: Script, k: nat)
    requires !GateCloses(cfg.memoryInitialized, cfg.keystoreLocked)
    requires WrongUntil(s, k) && k < |s.inputs| && k < |s.verdicts| && s.verdicts[k].result.OtherError?
    ensures UnlockFlow(cfg, s)
         == Flow(WrongRounds(s, k, cfg.capacity) + OPENING + [Verify(Entered(s.inputs[k], cfg.capacity))],
                 Aborted(KEYSTORE_FAILED_MESSAGE), Skip(s, k + 1))
  {
    var head := WrongRounds(s, k, cfg.capacity) + OPENING + [Verify(Entered(s.inputs[k], cfg.capacity))];
    FrameRefused(cfg, s, k);
    RoundFinishes(cfg, s, k);
    assert head + [] == head;
  }

  /** The gate: unless the memory is initialized and the keystore locked,
      nothing at all happens; otherwise the flow opens with the screen
      reset and the password prompt. */
  lemma Gate(cfg: Config, s: Script)
    ensures GateCloses(cfg.memoryInitialized, cfg.keystoreLocked) ==> UnlockFlow(cfg, s) == Flow([], Returned, s)
    ensures !GateCloses(cfg.memoryInitialized, cfg.keystoreLocked) ==>
              2 <= |UnlockFlow(cfg, s).events| && UnlockFlow(cfg, s).events[..2] == OPENING
  {
    if !GateCloses(cfg.memoryInitialized, cfg.keystoreLocked) {
      var f := Rounds(cfg, s);
      assert f.events == OPENING + (f.events[2..]);
    }
  }

  // ------------------------------------------- password buffer zeroing

  function StepEvents(st: Step): seq<Event>
  {
    match st
    case Retry(events, _) => events
    case Finish(flow) => flow.events
  }

  lemma HandleErrorEventsAreOwn(password: string, s: Script)
    ensures forall e :: e in HandleError(password, s).events ==> e.Verify? || e.Status? || e == WorkflowStarted
  {
  }

  /** A frame's own events after its OPENING hold neither a new password
      prompt nor a password-buffer zeroing: those belong to frames. */
  lemma FrameEventsAreOwn(cfg: Config, s: Script)
    ensures PasswordZeroed(cfg.capacity) !in StepEvents(Frame(cfg, s))
    ensures Prompt(ENTER_PASSWORD_TITLE) !in StepEvents(Frame(cfg, s))
  {
    if s.inputs != [] {
      var cap := cfg.capacity;
      var h := HandleError(Entered(s.inputs[0], cap), s.(inputs := s.inputs[1..]));
      HandleErrorEventsAreOwn(Entered(s.inputs[0], cap), s.(inputs := s.inputs[1..]));
      if h.handled == Returns(KeystoreOk) {
        Bip39EventsAreOwn(cfg, h.rest);
        forall e | e in Bip39(cfg, h.rest).events
          ensures e != PasswordZeroed(cap) && e != Prompt(ENTER_PASSWORD_TITLE)
        {
          NotAPasswordRoundEvent(e, cap);
        }
      }
    }
  }

  /** On return, one password-buffer zeroing per password prompt; after an
      abort or while stalled, none. */
  predicate ZeroingBalanced(f: Flow, cap: Capacity)
  {
    multiset(f.events)[PasswordZeroed(cap)] == if f.stop == Returned then multiset(f.events)[Prompt(ENTER_PASSWORD_TITLE)] else 0
  }

  lemma OwnFlowBalanced(f: Flow, cap: Capacity)
    requires PasswordZeroed(cap) !in f.events && Prompt(ENTER_PASSWORD_TITLE) !in f.events
    ensures ZeroingBalanced(f, cap)
  {
  }

  lemma OwnEventsBalanced(events: seq<Event>, f: Flow, cap: Capacity)
    requires PasswordZeroed(cap) !in events && Prompt(ENTER_PASSWORD_TITLE) !in events
    requires ZeroingBalanced(f, cap)
    ensures ZeroingBalanced(Then(events, f), cap)
  {
  }

  lemma FrameKeepsBalance(inner: Flow, cap: Capacity)
    requires ZeroingBalanced(inner, cap)
    ensures ZeroingBalanced(Nest(OPENING, 1, inner, cap), cap)
  {
    var pz := PasswordZeroed(cap);
    assert Repeat(pz, 1) == [pz];
    assert multiset(OPENING)[pz] == 0 && multiset(OPENING)[Prompt(ENTER_PASSWORD_TITLE)] == 1;
  }

  /** Every password_enter for the password opens a frame, and a frame
      zeroes its password buffer exactly when the flow returns to it. */
  lemma {:induction false} PasswordBuffersZeroed(cfg: Config, s: Script)
    ensures ZeroingBalanced(Rounds(cfg, s), cfg.capacity)
    decreases |s.inputs|
  {
    var cap := cfg.capacity;
    FrameEventsAreOwn(cfg, s);
    match Frame(cfg, s)
    case Finish(f) =>
      assert ZeroingBalanced(f, cap) by {
        OwnFlowBalanced(f, cap);
      }
      FrameKeepsBalance(f, cap);
    case Retry(events, rest) =>
      assert ZeroingBalanced(Then(events, Rounds(cfg, rest)), cap) by {
        PasswordBuffersZeroed(cfg, rest);
        OwnEventsBalanced(events, Rounds(cfg, rest), cap);
      }
      FrameKeepsBalance(Then(events, Rounds(cfg, rest)), cap);
  }

  /** The same for the whole workflow, gate included. */
  lemma UnlockZeroesEveryPasswordBuffer(cfg: Config, s: Script)
    ensures ZeroingBalanced(UnlockFlow(cfg, s), cfg.capacity)
  {
    if !GateCloses(cfg.memoryInitialized, cfg.keystoreLocked) {
      PasswordBuffersZeroed(cfg, s);
    }
  }

  // ---------------------------------------------------------- scenarios

  lemma TwoTriesRemain()
    ensures WrongPasswordMessage(2) == "Wrong password\n2 tries remain"
  {
    WrongPasswordMessageShape(2);
    assert Decimal(2) == "2";
  }

  /** Verdicts "incorrect, 2 left", "incorrect, 1 left", "ok", without the
      passphrase option: the two wrong-password statuses in that order, then
      a single seed unlock with the empty passphrase, then each of the three
      frames zeroes its password buffer. */
  lemma ScenarioAcceptedOnThirdTry(cfg: Config, s: Script, p1: string, p2: string, p3: string, left: uint8)
    requires !GateCloses(cfg.memoryInitialized, cfg.keystoreLocked)
    requires !cfg.passphraseEnabled && cfg.seedUnlockSucceeds
    requires s == Script([p1, p2, p3], [Verdict(IncorrectPassword, 2), Verdict(IncorrectPassword, 1), Verdict(KeystoreOk, left)])
    ensures UnlockFlow(cfg, s)
         == Flow((OPENING + [Verify(Entered(p1, cfg.capacity)), Status("Wrong password\n2 tries remain")])
                 + (OPENING + [Verify(Entered(p2, cfg.capacity)), Status("Wrong password\n1 try remains")])
                 + (OPENING + [Verify(Entered(p3, cfg.capacity))])
                 + (ANIMATION + [SeedUnlock(""), Zeroed(SeedPassphraseBuffer, Zeros(cfg.capacity))])
                 + Repeat(PasswordZeroed(cfg.capacity), 3),
                 Returned, Script([], []))
  {
    var cap := cfg.capacity;
    var r0 := OPENING + [Verify(Entered(p1, cap)), Status("Wrong password\n2 tries remain")];
    var r1 := OPENING + [Verify(Entered(p2, cap)), Status("Wrong password\n1 try remains")];
    var call := [Verify(Entered(p3, cap))];
    var seed := Bip39(cfg, Skip(s, 3));
    assert UnlockFlow(cfg, s) == Nest(WrongRounds(s, 2, cap) + OPENING + call, 3, seed, cap) by {
      assert WrongUntil(s, 2);
      PasswordAccepted(cfg, s, 2);
    }
    assert WrongRounds(s, 2, cap) + OPENING + call == r0 + r1 + (OPENING + call) by {
      assert WrongRounds(s, 2, cap) == r0 + r1 by {
        TwoTriesRemain();
        WrongPasswordMessageShape(1);
        assert WrongRound(s, 0, cap) == r0 && WrongRound(s, 1, cap) == r1;
        assert WrongRounds(s, 0, cap) == [];
      }
      Concat3(r0 + r1, OPENING, call);
    }
    assert seed == Flow(ANIMATION + [SeedUnlock(""), Zeroed(SeedPassphraseBuffer, Zeros(cap))], Returned, Script([], [])) by {
      assert Skip(s, 3) == Script([], []);
      SeedUnlockWithoutPassphrase(cfg, Skip(s, 3));
    }
  }

  /** Verdicts "incorrect, 1 left", then "maximum attempts exceeded": the
      singular status, the reset status, workflow_start, and then only the
      two frames zeroing their password buffers. */
  lemma ScenarioResetOnSecondTry(cfg: Config, s: Script, p1: string, p2: string, left: uint8)
    requires !GateCloses(cfg.memoryInitialized, cfg.keystoreLocked)
    requires s == Script([p1, p2], [Verdict(IncorrectPassword, 1), Verdict(MaxAttemptsExceeded, left)])
    ensures UnlockFlow(cfg, s)
         == Flow((OPENING + [Verify(Entered(p1, cfg.capacity)), Status("Wrong password\n1 try remains")])
                 + (OPENING + [Verify(Entered(p2, cfg.capacity)), Status(DEVICE_RESET_MESSAGE), WorkflowStarted])
                 + [PasswordZeroed(cfg.capacity), PasswordZeroed(cfg.capacity)],
                 Returned, Script([], []))
  {
    var cap := cfg.capacity;
    var r0 := OPENING + [Verify(Entered(p1, cap)), Status("Wrong password\n1 try remains")];
    var last := [Verify(Entered(p2, cap)), Status(DEVICE_RESET_MESSAGE), WorkflowStarted];
    assert UnlockFlow(cfg, s) == Flow(WrongRounds(s, 1, cap) + OPENING + last + Repeat(PasswordZeroed(cap), 2), Returned, Skip(s, 2)) by {
      assert WrongUntil(s, 1);
      AttemptsExhausted(cfg, s, 1);
    }
    assert WrongRounds(s, 1, cap) + OPENING + last == r0 + (OPENING + last) by {
      assert WrongRounds(s, 1, cap) == r0 by {
        WrongPasswordMessageShape(1);
        assert WrongRounds(s, 0, cap) == [];
      }
      Concat3(r0, OPENING, last);
    }
    assert Skip(s, 2) == Script([], []);
    assert Repeat(PasswordZeroed(cap), 2) == [PasswordZeroed(cap), PasswordZeroed(cap)];
  }

  /** The confirmation loop of the scenario below: one disagreeing pair,
      then an agreeing one. */
  lemma ConfirmOneMismatch(e1: string, c1: string, e2: string, c2: string, cap: Capacity)
    requires Entered(e1, cap) != Entered(c1, cap)
    requires Entered(e2, cap) == Entered(c2, cap)
    ensures Confirm([e1, c1, e2, c2], cap)
         == Confirmation(MISMATCH_ROUND + PASSPHRASE_PROMPTS + PassphraseZeroing(cap), Some(Entered(e2, cap)), [])
  {
    assert Confirm([e1, c1] + [e2, c2], cap) == Prefixed(MISMATCH_ROUND, Confirm([e2, c2], cap)) by {
      ConfirmAfterDisagreement((e1, c1), [e2, c2], cap);
    }
    assert Confirm([e2, c2], cap) == Confirmation(PASSPHRASE_PROMPTS + PassphraseZeroing(cap), Some(Entered(e2, cap)), []) by {
      assert [e2, c2] + [] == [e2, c2];
      ConfirmAtAgreement((e2, c2), [], cap);
    }
    assert [e1, c1, e2, c2] == [e1, c1] + [e2, c2];
    Concat3(MISMATCH_ROUND, PASSPHRASE_PROMPTS, PassphraseZeroing(cap));
  }

  /** The passphrase part of the scenario below. */
  lemma OneMismatchThenAgreement(cfg: Config, t: Script, e1: string, c1: string, e2: string, c2: string)
    requires cfg.passphraseEnabled && cfg.seedUnlockSucceeds
    requires Entered(e1, cfg.capacity) != Entered(c1, cfg.capacity)
    requires Entered(e2, cfg.capacity) == Entered(c2, cfg.capacity)
    requires t == Script([e1, c1, e2, c2], [])
    ensures Bip39(cfg, t)
         == Then(MISMATCH_ROUND + PASSPHRASE_PROMPTS + PassphraseZeroing(cfg.capacity),
                 Flow(ANIMATION + [SeedUnlock(Entered(e2, cfg.capacity)), Zeroed(SeedPassphraseBuffer, Zeros(cfg.capacity))],
                      Returned, Script([], [])))
  {
    var cap := cfg.capacity;
    var p := Entered(e2, cap);
    var c := Confirm(t.inputs, cap);
    assert c == Confirmation(MISMATCH_ROUND + PASSPHRASE_PROMPTS + PassphraseZeroing(cap), Some(p), []) by {
      ConfirmOneMismatch(e1, c1, e2, c2, cap);
    }
    assert Bip39(cfg, t) == Then(c.events, SeedUnlockFlow(cfg, p, Script([], [])));
  }

  /** The first password accepted with the passphrase option on; the first
      passphrase round disagrees, the second agrees: one mismatch status,
      then the seed unlock with the agreed entry. */
  lemma ScenarioPassphraseOnSecondRound(cfg: Config, s: Script, password: string, e1: string, c1: string, e2: string, c2: string, left: uint8)
    requires !GateCloses(cfg.memoryInitialized, cfg.keystoreLocked)
    requires cfg.passphraseEnabled && cfg.seedUnlockSucceeds
    requires Entered(e1, cfg.capacity) != Entered(c1, cfg.capacity)
    requires Entered(e2, cfg.capacity) == Entered(c2, cfg.capacity)
    requires s == Script([password, e1, c1, e2, c2], [Verdict(KeystoreOk, left)])
    ensures UnlockFlow(cfg, s)
         == Flow((OPENING + [Verify(Entered(password, cfg.capacity))])
                 + (MISMATCH_ROUND + PASSPHRASE_PROMPTS + PassphraseZeroing(cfg.capacity))
                 + (ANIMATION + [SeedUnlock(Entered(e2, cfg.capacity)), Zeroed(SeedPassphraseBuffer, Zeros(cfg.capacity))])
                 + [PasswordZeroed(cfg.capacity)],
                 Returned, Script([], []))
  {
    var cap := cfg.capacity;
    var t := Skip(s, 1);
    var head := OPENING + [Verify(Entered(password, cap))];
    var confirm := MISMATCH_ROUND + PASSPHRASE_PROMPTS + PassphraseZeroing(cap);
    var unlocked := Flow(ANIMATION + [SeedUnlock(Entered(e2, cap)), Zeroed(SeedPassphraseBuffer, Zeros(cap))], Returned, Script([], []));
    assert UnlockFlow(cfg, s) == Nest(WrongRounds(s, 0, cap) + OPENING + [Verify(Entered(s.inputs[0], cap))], 1, Bip39(cfg, t), cap) by {
      assert WrongUntil(s, 0);
      PasswordAccepted(cfg, s, 0);
    }
    assert WrongRounds(s, 0, cap) + OPENING + [Verify(Entered(s.inputs[0], cap))] == head by {
      assert WrongRounds(s, 0, cap) == [];
      assert s.inputs[0] == password;
    }
    assert Bip39(cfg, t) == Then(confirm, unlocked) by {
      assert t == Script([e1, c1, e2, c2], []);
      OneMismatchThenAgreement(cfg, t, e1, c1, e2, c2);
    }
    assert Nest(head, 1, Then(confirm, unlocked), cap)
        == Flow(head + confirm + unlocked.events + [PasswordZeroed(cap)], Returned, Script([], [])) by {
      NestThen(head, 1, confirm, unlocked, cap);
      assert Repeat(PasswordZeroed(cap), 1) == [PasswordZeroed(cap)];
    }
  }
}
