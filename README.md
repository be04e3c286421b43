# Unlock workflow of the BitBox02 firmware, modelled in Dafny

This project models `src/workflow/unlock.c`, the workflow that unlocks the
device. It has four parts:

- **The gate.** `workflow_unlock` does nothing unless the memory is
  initialized and the keystore is locked.
- **The password rounds.** `_workflow_unlock` clears the screen stack,
  prompts for the password and hands it to `workflow_unlock_enter_done`.
  A wrong password calls `_workflow_unlock` again.
- **The attempt evaluator.** `workflow_unlock_and_handle_error` turns each
  keystore verdict into a status message and a follow-up action.
- **The seed unlock.** `workflow_unlock_bip39` optionally runs the
  passphrase confirmation loop of `_get_mnemonic_passphrase`. It then
  shows the lock/unlock animation and calls `keystore_unlock_bip39`.

Everything outside the file is an oracle. The oracles live in the class
`Unlock.Device`, which keeps two things:

- a **trace**: one `Event` per call into the screen, the keystore, the
  status screens, `workflow_start`, `delay_ms` and `util_zero`;
- a **script**: the strings the user will type (one per `password_enter`,
  for the password and the passphrase prompts alike) and the verdicts
  `keystore_unlock` will return (result and remaining attempts).

The device flags and the seed-unlock answer come from a `Config`.

The modules:

- `CText` (`ctext.dfy`): the C conventions the code relies on.
  - A C string is the characters of a buffer before its first NUL.
  - `snprintf` truncates to `size - 1` characters and then writes a NUL.
  - `%d` prints decimal digits.
- `UnlockSpec` (`unlock_spec.dfy`): each workflow function as a pure
  function of the config and the script. The result is a `Flow`: the
  events, how the flow stops, and the unread part of the script.
  - `Returned`: the function returned to its caller.
  - `Aborted(msg)`: the firmware called `Abort`.
  - `Stalled`: the script ran out. When the typed inputs run out, the
    device would still be waiting at a prompt. When the verdicts run out,
    the script simply holds fewer answers than there are `keystore_unlock`
    calls, which the real keystore never does.
  - The mutual recursion of `_workflow_unlock` and
    `workflow_unlock_enter_done` is `Rounds`. It is one `Frame` per
    password round, nested with `Nest`. A frame zeroes its password buffer
    only if the flow returns to it.
- `Unlock` (`unlock.dfy`): the C functions as imperative methods over
  `char` arrays on a `Device`.
  - Each method is proved to leave exactly the trace and script that its
    `UnlockSpec` function describes. Its contract is stated with
    `old(...)`, relating the state before and after. The properties of the
    flows are proved in `UnlockProperties` about the `UnlockSpec`
    functions the methods are proved equal to.
  - The recursion becomes a loop. It enters one frame per wrong password
    and keeps each frame's password buffer on a stack. Once the innermost
    frame returns, the buffers are zeroed innermost first.
- `UnlockProperties` (`unlock_properties.dfy`): what the workflow
  promises, proved of the `UnlockSpec` functions.
  - the wrong-password messages;
  - the confirmation loop stopping at the first agreeing pair;
  - routing of each verdict;
  - which buffers are zeroed;
  - the seed unlock;
  - three end-to-end scenarios.

## Model

| member | source | states |
|---|---|---|
| CText.CStr | src/workflow/unlock.c:47 | The string `STREQ` compares is a prefix of the buffer, holds no NUL, and ends where the buffer has a NUL or ends |
| CText.Truncated | src/workflow/unlock.c:48 | `snprintf` into `size` bytes keeps a prefix of the input: all of an input shorter than `size`, exactly `size - 1` characters of a longer one |
| CText.WriteString | src/workflow/unlock.c:48 | After `snprintf(out, size, "%s", s)` the buffer holds the truncated string, a NUL, and its old bytes after that NUL |
| CText.CStrOfWritten | src/workflow/unlock.c:35 | Reading back a buffer `password_enter` filled gives the typed string truncated to the capacity, whatever the buffer held before |
| CText.CStrOfCopy | src/workflow/unlock.c:48 | Copying a NUL-free string: the output buffer reads back as exactly the truncated string |
| CText.Decimal | src/workflow/unlock.c:112 | `%d` of a count prints at least one digit, only digits, and a leading zero only for 0 |
| CText.DecimalRoundTrip | src/workflow/unlock.c:112 | Reading the printed digits back gives the count |
| CText.DecimalLength | src/workflow/unlock.c:108-112 | A count below 1000 (any `uint8_t`) prints at most three digits |
| UnlockSpec.HandleError | src/workflow/unlock.c:100-125 | The evaluator calls the keystore first and consumes exactly one verdict and no typed input. It halts exactly on a verdict outside OK / incorrect / max-attempts (or on no verdict), and otherwise returns the keystore's result unchanged |
| UnlockSpec.EnterDone | src/workflow/unlock.c:86-98 | Deciding to try again reads no typed input |
| UnlockSpec.Frame | src/workflow/unlock.c:31-38 | Each round that retries consumes one typed input, which bounds the recursion by the script |
| UnlockSpec.RoundsStep | src/workflow/unlock.c:94-97 | Entering one more `_workflow_unlock` frame: a finished round ends the nesting one level deeper, and a retry continues with the rest of the script one level deeper |
| UnlockSpec.ConfirmStalls | src/workflow/unlock.c:44-46 | Helper for `Unlock.ConfirmLoop`, one case of `Confirm` after earlier events: with fewer than two strings left the confirmation loop waits at a prompt, with no passphrase |
| UnlockSpec.ConfirmMismatch | src/workflow/unlock.c:47-51 | Helper for `Unlock.ConfirmLoop`, one case of `Confirm` after earlier events: two entries that differ as C strings show the mismatch status and start the loop over on the remaining input |
| UnlockSpec.ConfirmMatch | src/workflow/unlock.c:47-54 | Helper for `Unlock.ConfirmLoop`, one case of `Confirm` after earlier events: two entries that agree end the loop with the entry, truncated to the capacity, followed by zeroing both local buffers |
| UnlockSpec.GateCloses | src/workflow/unlock.c:129 | The gate `workflow_unlock` checks first: it closes unless the memory is initialized and the keystore is locked. `UnlockProperties.Gate` states what the workflow does on either side of it |
| UnlockSpec.WrongPasswordText | src/workflow/unlock.c:107-112 | The text formatted for a wrong password: the singular form for one remaining try, otherwise the count in decimal and the plural form. Its properties are stated by `UnlockProperties.WrongPasswordMessageShape`, `WrongPasswordMessageFits` and `WrongPasswordMessageDistinct` |
| UnlockSpec.WrongPasswordMessage | src/workflow/unlock.c:107-114 | The status shown: that text as `snprintf` leaves it in `char msg[100]`. `UnlockProperties.WrongPasswordMessageFits` proves nothing is cut off, and `UnlockProperties.TwoTriesRemain` gives one instance |
| UnlockSpec.Confirm | src/workflow/unlock.c:40-55 | The passphrase confirmation loop over the typed inputs: pairs of prompts until two entries agree, a mismatch status after each pair that disagrees, then both local buffers zeroed. `UnlockProperties.ConfirmStopsAtFirstAgreement`, `ConfirmWithoutAgreement`, `ConfirmEventsAreOwn` and `MismatchesCount` state its properties, and `Unlock.GetMnemonicPassphrase` is proved equal to it |
| UnlockSpec.SeedUnlockFlow | src/workflow/unlock.c:65-83 | The animation, the seed unlock with the passphrase, then either zeroing the passphrase buffer and returning, or the "bip39 unlock failed" abort. `Unlock.UnlockSeed` is proved equal to it |
| UnlockSpec.Bip39 | src/workflow/unlock.c:57-84 | The seed unlock with the empty passphrase, or, with the option on, with the one the confirmation loop agrees on, waiting if there is none. `UnlockProperties.SeedUnlockWithoutPassphrase`, `SeedUnlockWithPassphrase` and `Bip39EventsAreOwn` state its properties, and `Unlock.WorkflowUnlockBip39` is proved equal to it |
| UnlockSpec.Rounds | src/workflow/unlock.c:31-38 | The `_workflow_unlock` frames, re-entered through `workflow_unlock_enter_done` (`unlock.c:94-97`), with each frame zeroing its password buffer when it returns. `UnlockProperties.RoundsAfterWrongPasswords`, `RoundFinishes`, `PasswordAccepted`, `AttemptsExhausted`, `VerdictRefused` and `PasswordBuffersZeroed` state its properties, and `Unlock.WorkflowUnlockRounds` is proved equal to it |
| UnlockSpec.UnlockFlow | src/workflow/unlock.c:127-133 | `workflow_unlock`: nothing when the gate closes, otherwise the rounds. `UnlockProperties.Gate` and `UnlockZeroesEveryPasswordBuffer` state its properties, and `Unlock.WorkflowUnlock` is proved equal to it |
| Unlock.Device.ScreenStackPopAll | src/workflow/unlock.c:33 | Records the screen-stack reset and changes nothing else |
| Unlock.Device.PasswordEnter | src/workflow/unlock.c:35 | Records the prompt. Writes the next scripted string into the buffer the way `snprintf` does and consumes it; reports whether there was one |
| Unlock.Device.StatusCreate | src/workflow/unlock.c:114 | Records the status message |
| Unlock.Device.KeystoreUnlock | src/workflow/unlock.c:102-103 | Records the keystore call and returns the next verdict with its remaining attempts, consuming it |
| Unlock.Device.WorkflowStart | src/workflow/unlock.c:119 | Records `workflow_start` |
| Unlock.Device.ShowImage | src/workflow/unlock.c:68-70 | Records a picture sent to the screen |
| Unlock.Device.DelayMs | src/workflow/unlock.c:72 | Records the pause |
| Unlock.Device.KeystoreUnlockBip39 | src/workflow/unlock.c:79 | Records the seed unlock with its passphrase and returns the configured answer |
| Unlock.Device.UtilZero | src/workflow/unlock.c:37 | Every byte of the buffer becomes zero, and the zeroing is recorded |
| Unlock.WorkflowUnlockAndHandleError | src/workflow/unlock.c:100-125 | Emits exactly the evaluator's events, formatting the wrong-password message in `char msg[100]`, and returns its verdict result |
| Unlock.WrongPasswordMessageReadBack | src/workflow/unlock.c:108-114 | The text formatted into `msg` reads back as the wrong-password message |
| Unlock.PassphraseRound | src/workflow/unlock.c:45-51 | One loop pass: two prompts, then agreement (entry buffer holds the typed entry), or disagreement (mismatch status), or no answer; two inputs consumed when answered |
| Unlock.ConfirmLoop | src/workflow/unlock.c:44-52 | The `while (true)` loop leaves the trace and script `Confirm` describes, and on a match the entry buffer holds the agreed passphrase |
| Unlock.GetMnemonicPassphrase | src/workflow/unlock.c:40-55 | Output buffer holds the agreed passphrase and both local buffers are zeroed after the loop; trace and script as `Confirm` says |
| Unlock.UnlockSeed | src/workflow/unlock.c:65-83 | Lock image, pause, unlock image, seed unlock; on failure abort with "bip39 unlock failed" and leave the buffer as it was, on success the passphrase buffer is all zero |
| Unlock.WorkflowUnlockBip39 | src/workflow/unlock.c:57-84 | Seed unlock with the empty passphrase, or with the confirmed one when the option is on, as `Bip39` describes |
| Unlock.WorkflowUnlockEnterDone | src/workflow/unlock.c:86-98 | OK leads to the seed unlock, incorrect password to another round, anything else ends the flow, as `EnterDone` describes |
| Unlock.WorkflowUnlockFrame | src/workflow/unlock.c:31-36 | One frame up to its `util_zero`: screen reset, prompt into a fresh zeroed buffer, then `workflow_unlock_enter_done` |
| Unlock.EnterFrames | src/workflow/unlock.c:94-97 | The descent through the nested frames: one fresh password buffer per frame, and the trace so far equals the frames' events around the innermost outcome given by `Rounds` |
| Unlock.NextFrame | src/workflow/unlock.c:31-36 | Helper for `Unlock.EnterFrames`, one step of the descent: a frame that finishes closes the nest with its outcome; a frame that asks again hands the nest on to `Rounds` of the shorter remaining script |
| Unlock.ZeroFrames | src/workflow/unlock.c:37 | As the frames return, every frame's password buffer is zeroed, innermost first, one recorded zeroing per frame |
| Unlock.WorkflowUnlockRounds | src/workflow/unlock.c:31-38 | `_workflow_unlock` with its recursion leaves exactly the trace, script and outcome of `Rounds` |
| Unlock.WorkflowUnlock | src/workflow/unlock.c:127-133 | The gate, then the rounds, as `UnlockFlow` describes |
| UnlockProperties.WrongPasswordMessageFits | src/workflow/unlock.c:108-112 | Every `uint8_t` count's message fits `char msg[100]`, so `snprintf` never truncates it |
| UnlockProperties.WrongPasswordMessageShape | src/workflow/unlock.c:109-112 | Count 1 gives "Wrong password\n1 try remains". Every other count, 0 included, gives "Wrong password\n" then the count's digits then " tries remain", and the digits read back as the count |
| UnlockProperties.WrongPasswordMessageDistinct | src/workflow/unlock.c:109-112 | Different counts give different messages |
| UnlockProperties.TwoTriesRemain | src/workflow/unlock.c:112 | Two remaining attempts give "Wrong password\n2 tries remain" |
| UnlockProperties.MismatchRoundCount | src/workflow/unlock.c:45-51 | A disagreeing round shows each of its two prompts and the mismatch status once |
| UnlockProperties.MismatchesCount | src/workflow/unlock.c:44-51 | k disagreeing rounds show exactly k mismatch statuses, k entry prompts and k confirmation prompts, and nothing else |
| UnlockProperties.ConfirmAfterDisagreement | src/workflow/unlock.c:47-51 | A first pair that disagrees adds one mismatch round and restarts on the rest |
| UnlockProperties.ConfirmAtAgreement | src/workflow/unlock.c:47-54 | A first pair that agrees ends the loop with its entry, zeroing both buffers, leaving the rest unread |
| UnlockProperties.ConfirmStopsAtFirstAgreement | src/workflow/unlock.c:44-54 | For any disagreeing pairs followed by an agreeing pair, the loop stops at that pair, with one mismatch status per earlier pair. The agreed entry is copied out, both buffers are zeroed, and later input is left unread |
| UnlockProperties.ConfirmWithoutAgreement | src/workflow/unlock.c:44-52 | With no agreeing pair the loop reads all input, shows one mismatch per pair and waits at a prompt with nothing copied out |
| UnlockProperties.ConfirmEventsAreOwn | src/workflow/unlock.c:40-55 | The confirmation loop emits only passphrase prompts, the mismatch status and the zeroing of its own two buffers |
| UnlockProperties.Bip39EventsAreOwn | src/workflow/unlock.c:57-84 | The seed-unlock step emits only confirmation-loop events, the animation, the seed unlock and the zeroing of its passphrase buffer |
| UnlockProperties.SeedUnlockWithoutPassphrase | src/workflow/unlock.c:59-83 | Without the option: no prompt; the lock image, pause and unlock image come before the single seed unlock with "" as passphrase; failure aborts with "bip39 unlock failed", success zeroes the buffer |
| UnlockProperties.SeedUnlockWithPassphrase | src/workflow/unlock.c:61-79 | With the option: the seed unlock receives the first agreed entry, after the mismatch rounds and the zeroing of both loop buffers |
| UnlockProperties.RoundRejected | src/workflow/unlock.c:94-97 | A wrong password shows its status and starts a fresh round on the next input and verdict |
| UnlockProperties.RoundsAfterWrongPasswords | src/workflow/unlock.c:31-38 | After k wrong passwords the flow is k frames deep. Each frame showed the screen reset, the prompt, the keystore call and the wrong-password status for its verdict |
| UnlockProperties.RoundFinishes | src/workflow/unlock.c:86-98 | A round that does not retry closes the nesting after k + 1 frames |
| UnlockProperties.FrameAccepted | src/workflow/unlock.c:89-92 | An OK verdict leads from the keystore call straight to the seed unlock |
| UnlockProperties.FrameReset | src/workflow/unlock.c:117-120 | A max-attempts verdict shows "Device reset", calls `workflow_start` and returns |
| UnlockProperties.FrameRefused | src/workflow/unlock.c:121-122 | Any other verdict aborts with "keystore unlock failed" |
| UnlockProperties.PasswordAccepted | src/workflow/unlock.c:89-92 | After k wrong passwords an OK verdict runs the seed unlock once inside k + 1 frames. Its events contain no further password prompt, keystore call or `workflow_start` |
| UnlockProperties.AttemptsExhausted | src/workflow/unlock.c:117-120 | After k wrong passwords a max-attempts verdict shows one "Device reset" and one `workflow_start`. After that come only the k + 1 password-buffer zeroings: no prompt, no seed unlock |
| UnlockProperties.VerdictRefused | src/workflow/unlock.c:121-122 | After k wrong passwords any other verdict aborts with "keystore unlock failed" right after the keystore call, with no zeroing |
| UnlockProperties.Gate | src/workflow/unlock.c:129-132 | Memory not initialized or keystore not locked: empty trace, flow returns, script untouched. Otherwise the trace starts with the screen reset and the "Enter password" prompt |
| UnlockProperties.HandleErrorEventsAreOwn | src/workflow/unlock.c:100-125 | The evaluator emits only the keystore call, status screens and `workflow_start` |
| UnlockProperties.FrameEventsAreOwn | src/workflow/unlock.c:86-98 | What follows a frame's prompt holds no password prompt and no password-buffer zeroing |
| UnlockProperties.FrameKeepsBalance | src/workflow/unlock.c:33-37 | A frame adds one "Enter password" prompt and, if the flow returns, one password-buffer zeroing |
| UnlockProperties.PasswordBuffersZeroed | src/workflow/unlock.c:31-38 | When the rounds return, the number of password-buffer zeroings equals the number of "Enter password" prompts; after an abort or a stall there are none |
| UnlockProperties.UnlockZeroesEveryPasswordBuffer | src/workflow/unlock.c:127-133 | The same balance for the whole workflow, gate included |
| UnlockProperties.ScenarioAcceptedOnThirdTry | src/workflow/unlock.c:86-115 | Verdicts (incorrect, 2 left), (incorrect, 1 left), OK give "2 tries remain" then "1 try remains" in that order, then one seed unlock with "", then three password zeroings |
| UnlockProperties.ScenarioResetOnSecondTry | src/workflow/unlock.c:107-120 | Verdicts (incorrect, 1 left), max-attempts give "1 try remains", "Device reset", `workflow_start`, then only two password zeroings |
| UnlockProperties.ConfirmOneMismatch | src/workflow/unlock.c:44-54 | Helper for the scenario below: a disagreeing pair then an agreeing pair make the loop print one mismatch status, then end with the agreed entry and nothing left |
| UnlockProperties.OneMismatchThenAgreement | src/workflow/unlock.c:44-54 | One disagreeing pair then an agreeing pair: one mismatch status, then the seed unlock with the agreed entry |
| UnlockProperties.ScenarioPassphraseOnSecondRound | src/workflow/unlock.c:57-92 | First password accepted with the passphrase option on, one disagreeing pair, then an agreeing one: the full trace ending in the seed unlock with the agreed entry and one password zeroing |

## Left out

- Rendering: `UG_ClearBuffer`, `image_lock`, `image_unlock` and `UG_SendBuffer` are one `Picture` event per image, in order.
- `delay_ms(1200)` is one `Pause` event. It is modelled as in the firmware build, where `TESTING` is not defined.
- Keystore internals: verifying the password, the persistent attempt counter and `keystore_unlock_bip39` are scripted answers.
- `memory_is_initialized`, `keystore_is_locked` and `memory_is_mnemonic_passphrase_enabled` are fixed `Config` fields.
- `password_enter` and `workflow_status_create` internals: the user interface and the blocking screens.
  - `password_enter` is assumed to write the typed string the way `snprintf` would (truncate to capacity - 1 characters, then a NUL).
  - A status screen is only an event; dismissing it is not modelled.
- `workflow_start` and `ui_screen_stack_pop_all` are opaque events. `workflow_start` returns, as the code's call does, and the frames then zero their password buffers.
- `Abort` is only a terminal `Aborted(message)` outcome. Since it does not return, no buffer is zeroed after it.
- `SET_PASSWORD_MAX_PASSWORD_LENGTH` is not visible in this file. It is `Config.capacity`, any positive size.
- Termination: the device waits for ever at a prompt that gets no answer. The model stops there with the outcome `Stalled` instead, which bounds both loops by the length of the script.
- The C call depth of the `_workflow_unlock` / `workflow_unlock_enter_done` recursion is not modelled: it is a loop over a stack of frame buffers.
- A verdict script shorter than the number of `keystore_unlock` calls is outside the real behaviour, since `keystore_unlock` always answers. The model ends such a flow as `Stalled` right after the `Verify` event.
- C `char` is a byte, while a Dafny `char` is a Unicode character; here each Dafny `char` stands for one C byte. Truncation to the capacity and the `STREQ` comparison therefore count characters where the firmware counts bytes; multi-byte encodings of the typed text are not modelled.

## Notes on the code

- The two passphrase buffers are zeroed once, after the loop (`unlock.c:53-54`). A disagreeing pass therefore leaves its entries in the buffers. The next `password_enter` overwrites only the new entry and its NUL, so the tail of a longer earlier entry stays until the `util_zero` calls at `unlock.c:53-54` (`CText.WriteString` keeps the bytes after the NUL).
- `workflow_start` returns, and every frame then zeroes its password buffer (`unlock.c:119-120`, `unlock.c:37`).
- A count of 0 gets the plural form, "Wrong password\n0 tries remain" (`unlock.c:111-112`).
