# Food image capture: the capture loops in Dafny

The food image capture scripts show a camera preview. The operator triggers a
capture with Enter. In `food-capture2.py` the trigger is a line on standard
input instead. The scripts then:

- flush a few buffered frames and save a fresh frame as a JPEG under `./image`
  (the read after the flush in `2.2`, `2.3` and `2.4`; in `food-capture2.py`
  the last of the five reads `get_fresh_frame` makes);
- compute the SHA-256 digest of the saved file and compare it with the digest
  of the last capture that was accepted;
- delete the file if the digests are equal;
- otherwise send the photo to a Telegram chat with a caption.

`food-capture2.4.py` also lets the operator type an order number into the
preview. That number goes into the file name and the caption, and the upload
runs on a background thread.

This project models the decision logic of four of these scripts as a
deterministic state machine. It then proves what each branch does and what
the loop keeps.

- `text.dfy` (module `Text`): the Python string operations the loops use.
  These are `str.strip()` with Python's whitespace set, `str.replace` of one
  character, `"\n".join`, and `str.split` as the inverse of `join`.
- `capture.dfy` (module `Capture`): what the scripts share.
  - Frames and camera reads. `Camera` is a class with a read counter over a
    fixed feed of read results. `Discard` and `GetFreshFrame` are its flush
    loops.
  - The plain file name and caption formats.
  - The single-slot duplicate gate and the rule that a send succeeded
    exactly when the status is 200.
  - `SaveAndSend`, the save, gate and synchronous send step.
- `food_capture24.dfy`, `food_capture2.dfy`, `food_capture23.dfy` and
  `food_capture22.dfy` each model one script. Each has:
  - a value `Loop` holding the loop's locals and the number of camera reads;
  - a pure `Next` function for one pass of `while True`;
  - lemmas about `Next`;
  - a class whose fields are the script's locals or globals. Its `Iterate`
    method is proved equal to `Next` and keeps the invariant. Its `Run`
    method runs the loop over a finite sequence of inputs and is proved
    equal to `Steps`, the fold of `Next` over those inputs that stops when a
    pass ends the loop.

Inputs the scripts get from outside become parameters:

- the key code, the clock, the timestamp strings and the HTTP status code
  come in each pass's input record;
- the frames come from the camera's feed;
- the digest of a saved frame comes from a function `digestOf`. It is
  deterministic and not assumed to be injective.

The file system is the set of paths under `./image`. The background sender
of `food-capture2.4.py` is modelled as appending to a list of dispatched
uploads.

Points where the code behaves in ways a reader might not expect; the model
follows the code:

- In `food-capture2.2.py`, `2.3` and `2.4`, the read after the flush is not
  checked. A failed read hands `None` to `cv2.imwrite`. That raises, and only
  `KeyboardInterrupt` is caught, so the loop ends (outcome `Crashed`, with
  `running` false). Only `food-capture2.py` checks `ret` and carries on
  (`ReadFailed`).
- A send counts as successful only when the status is exactly 200. Every
  other status, 201 to 299 included, takes the error branch.
- In `food-capture2.py` the cooldown gate comes before the read. A second
  trigger within three seconds is ignored outright (`CoolingDown`); it is
  not captured and then found to be a duplicate. In `2.3` and `2.4` the
  cooldown is a sleep after a send. `2.2` has no cooldown at all.
- A duplicate's file is removed by path. When a duplicate was saved under
  the same name as an earlier file (the same one-second timestamp), that
  earlier file is removed too. `SaveAndSend` and `DuplicateDiscarded` state
  this (`files - {path}`).
- The duplicate gate remembers one digest only. A scene A, then a different
  scene B, then A again are all sent (`SeparatedRepeatDispatched`).

## Model

| member | source | states |
|---|---|---|
| Text.TrimLeft | food-capture2.4.py:128 | lstrip leaves a suffix of the code that is empty or starts with a non-space |
| Text.TrimLeftDrops | food-capture2.4.py:128 | everything lstrip removes is whitespace |
| Text.TrimRight | food-capture2.4.py:128 | rstrip leaves a prefix that is empty or ends with a non-space |
| Text.TrimRightDrops | food-capture2.4.py:128 | everything rstrip removes is whitespace |
| Text.Strip | food-capture2.4.py:128 | `str.strip()`: leading whitespace dropped one character at a time, then the rest trimmed on the right; its meaning is stated by the lemmas below |
| Text.StripIsTrims | food-capture2.4.py:128 | strip is lstrip followed by rstrip |
| Text.StripEnds | food-capture2.4.py:128 | the stripped code is no longer than the code and neither starts nor ends with whitespace |
| Text.StripPrintable | food-capture2.4.py:123-128 | stripping a code typed from printable keys leaves printable characters |
| Text.StripEmpty | food-capture2.4.py:128-156 | the stripped code is empty exactly when the typed code is all whitespace, which picks the no-code file name and caption |
| Text.StripOf | food-capture2.4.py:128 | strip of whitespace + m + whitespace is m, when m neither starts nor ends with whitespace |
| Text.ReplaceChar | food-capture2.4.py:134-135 | replace of one character keeps the length and changes exactly the occurrences of that character |
| Text.ReplaceCharMembers | food-capture2.4.py:134-135 | after a replace, the replaced character is gone and the replacement appears exactly when it was there already or the replaced one was |
| Text.Join | food-capture2.4.py:156 | `"\n".join(parts)`: the parts with the separator between each two; `SplitJoin` reads it back |
| Text.Split | food-capture2.4.py:156 | the inverse used to read a joined caption back: `str.split` on one character, which always gives at least one piece |
| Text.SplitPrefix | food-capture2.4.py:156 | a piece without separators joins onto the first piece of what follows |
| Text.SplitJoin | food-capture2.4.py:156 | splitting a join gives back the parts when no part contains the separator |
| Capture.PhotoPath | food-capture2.py:104 | `os.path.join(PHOTO_DIR, filename)` for a relative file name |
| Capture.PlainFilename | food-capture2.py:103 | `captured_<timestamp>_food.jpg` |
| Capture.PlainPathsCollide | food-capture2.py:102-104 | two plain captures get the same path exactly when their timestamps are equal |
| Capture.PlainCaption | food-capture2.py:123 | `f"{description}\n\nCaptured at {timestamp}"` |
| Capture.PlainCaptionLines | food-capture2.py:123 | the plain caption reads as the description, a blank line, and "Captured at" with the timestamp |
| Capture.Verdicts | food-capture2.4.py:142-148 | the gate gives one verdict per saved capture |
| Capture.VerdictsSnoc | food-capture2.4.py:142-148 | a new capture is judged only against the latest digest in the slot |
| Capture.VerdictsCons | food-capture2.4.py:142-148 | the first capture is judged against the slot, the rest against a slot holding the first capture's digest |
| Capture.VerdictAt | food-capture2.4.py:142-148 | a capture is a duplicate exactly when it equals the one saved just before it (the first is compared with the initial slot) |
| Capture.FirstAndSeparatedRepeatPass | food-capture2.4.py:104-148 | from an empty slot the first capture passes, and A, B, A is not caught |
| Capture.SaveAndSend | food-capture2.py:105-128 | a duplicate's file is removed and nothing is sent; a unique capture keeps its file, takes the slot and is sent once, reported as sent exactly when the status is 200; no other file changes; the slot invariant is kept |
| Capture.Camera.constructor | food-capture2.py:79 | a fresh device has made no reads |
| Capture.Camera.Read | food-capture2.4.py:109 | one read, returning the next result of the feed |
| Capture.Discard | food-capture2.4.py:130 | the flush makes exactly n reads |
| Capture.GetFreshFrame | food-capture2.py:70-74 | exactly `attempts` reads, returning the result of the last one (None for zero attempts, where Python finds `ret` unbound); food-capture2.2.py:85-89 is the same function, never called there, since that loop flushes inline |
| FoodCapture24.Classify | food-capture2.4.py:120-127 | the masked key selects append for 32..126 (the character with that code), backspace for 8, capture for 13 and exit for 27 |
| FoodCapture24.EditCode | food-capture2.4.py:123-126 | a printable key appends its character, backspace drops the last one (an empty code stays empty), other commands leave the code; `Step` edits through it |
| FoodCapture24.Typed | food-capture2.4.py:120-126 | the code after a run of editing keys, each classified and applied in turn |
| FoodCapture24.TypedPrintable | food-capture2.4.py:123-126 | whatever is typed, the code holds printable ASCII only |
| FoodCapture24.TypeThenBackspace | food-capture2.4.py:123-126 | backspace undoes the character just typed |
| FoodCapture24.SevenABackspace | food-capture2.4.py:123-126 | typing 7, A, backspace leaves "7" |
| FoodCapture24.Filename | food-capture2.4.py:134-137 | the file name for a stripped code: the timestamp with ':' made '-', the code with ' ' made '_', and no code segment for an empty code |
| FoodCapture24.FilenameColons | food-capture2.4.py:134-137 | the file name has a colon exactly when the code has one: the timestamp's colons become '-' |
| FoodCapture24.FilenameSpaces | food-capture2.4.py:134-137 | the file name has a space exactly when the timestamp has one: the code's spaces become '_' |
| FoodCapture24.FilenameKeepsCodeChars | food-capture2.4.py:134-137 | every other character of the code, '/' included, reaches the file name |
| FoodCapture24.Caption | food-capture2.4.py:150-156 | the order line for a non-empty code, the venue and the capture time, joined by line breaks |
| FoodCapture24.CaptionSplits | food-capture2.4.py:150-156 | the caption's lines are the order line (only for a non-empty code), the venue, and the capture time |
| FoodCapture24.OnEnter | food-capture2.4.py:130-168 | the Enter branch after the preview read: two reads thrown away, the third saved, gated, and dispatched or removed; a failed third read ends the loop |
| FoodCapture24.Step | food-capture2.4.py:108-172 | one pass for the command a key selects: the preview read (`continue` when it fails), then the edit, capture or exit branch |
| FoodCapture24.Next | food-capture2.4.py:108-172 | one pass of `while True`: the masked key classified, then `Step` |
| FoodCapture24.OnEnterKeepsInv | food-capture2.4.py:127-168 | the Enter branch keeps the invariant and adds to the uploads exactly the one it reports as dispatched |
| FoodCapture24.StepKeepsInv | food-capture2.4.py:108-172 | a pass keeps the invariant (printable code, slot empty exactly until the first upload, one cooldown per upload) for every printable key |
| FoodCapture24.NextKeepsInv | food-capture2.4.py:108-172 | every pass keeps the invariant and adds to the end of the uploads exactly the one it reports as dispatched |
| FoodCapture24.NoPreviewSkipsPass | food-capture2.4.py:109-112 | a failed preview read ends the pass before any key is read |
| FoodCapture24.PrintableKeyAppends | food-capture2.4.py:123-124 | a key in 32..126 appends exactly that character; nothing else changes |
| FoodCapture24.BackspaceErases | food-capture2.4.py:125-126 | backspace drops the last character, an empty code stays empty, nothing else changes |
| FoodCapture24.OtherKeysIgnored | food-capture2.4.py:120-127 | any other masked key, 255 included, changes nothing |
| FoodCapture24.EscapeExits | food-capture2.4.py:170-172 | ESC ends the loop and changes nothing else |
| FoodCapture24.EnterUsesStrippedCode | food-capture2.4.py:127-128 | Enter captures with the stripped code |
| FoodCapture24.FailedCaptureCrashes | food-capture2.4.py:130-139 | the capture is the third read after the preview; if it fails the loop ends with nothing saved or sent |
| FoodCapture24.DuplicateDiscarded | food-capture2.4.py:142-147 | a duplicate removes the file and clears the code; nothing is dispatched, slept or remembered |
| FoodCapture24.UniqueDispatched | food-capture2.4.py:148-168 | a unique capture keeps the file, takes the slot, dispatches one upload with its caption, clears the code and sleeps the cooldown |
| FoodCapture24.DeletedOrDispatched | food-capture2.4.py:142-159 | a saved capture is either deleted or dispatched, never both and never neither |
| FoodCapture24.FirstCaptureDispatched | food-capture2.4.py:104-159 | while the slot is empty (no upload yet), an Enter whose reads succeed dispatches the file and caption of the stripped code, whatever was typed before |
| FoodCapture24.SameSceneTwiceDuplicate | food-capture2.4.py:142-159 | the same scene captured twice in a row is dispatched once, and the second capture is a duplicate |
| FoodCapture24.SevenABackspaceEnter | food-capture2.4.py:123-156 | typing 7, A, backspace, Enter dispatches a file and caption built from the code "7" |
| FoodCapture24.Steps | food-capture2.4.py:107-172 | the passes over a run of inputs, stopping once a pass ends the loop: fewer outcomes than inputs only when the loop stopped |
| FoodCapture24.StepsKeepsInv | food-capture2.4.py:107-172 | a whole run keeps the invariant, and the uploads it adds are exactly those of its Dispatched outcomes, in order |
| FoodCapture24.EnterPass | food-capture2.4.py:127-159 | an Enter whose reads succeed is dispatched or a duplicate, a duplicate exactly when its digest is in the slot, and the slot then holds that digest |
| FoodCapture24.EnterRunVerdicts | food-capture2.4.py:107-159 | over a run of Enters whose reads succeed, pass i is a duplicate exactly where the single-slot verdict on the capture digests says so, and the slot ends on the latest digest |
| FoodCapture24.SeparatedRepeatDispatched | food-capture2.4.py:142-159 | from an empty slot, captures A, B, A with A different from B are all three dispatched |
| FoodCapture24.CaptureLoop.constructor | food-capture2.4.py:104-105 | the loop starts with an empty code and an empty slot |
| FoodCapture24.CaptureLoop.CaptureOnEnter | food-capture2.4.py:130-168 | the Enter branch does what `OnEnter` describes |
| FoodCapture24.CaptureLoop.Iterate | food-capture2.4.py:108-172 | one pass does what `Next` describes and keeps the invariant |
| FoodCapture24.CaptureLoop.Run | food-capture2.4.py:107-172 | the final state and every outcome are those of `Steps`; the invariant is kept and no dispatched upload is taken back |
| FoodCapture2.Next | food-capture2.py:85-128 | one pass after `input()` returns: the cooldown gate, five reads keeping the last, then save, gate and send; a failed read carries on |
| FoodCapture2.CoolingDownChangesNothing | food-capture2.py:87-92 | a trigger inside the cooldown window changes nothing: no read, no file, no upload |
| FoodCapture2.PassConsumesCooldown | food-capture2.py:94-96 | a trigger that passes the gate sets the capture time before reading, and makes five reads |
| FoodCapture2.RetriggerBlocked | food-capture2.py:87-113 | after any trigger that passes (failed read and duplicate included), a trigger less than three seconds later is ignored |
| FoodCapture2.FailedReadKeepsStore | food-capture2.py:98-100 | a failed read writes no file, keeps the digest and sends nothing |
| FoodCapture2.GoodReadGated | food-capture2.py:102-128 | a good read is saved as captured_<timestamp>_food.jpg and gated and sent with "Food capture\n\nCaptured at <timestamp>" |
| FoodCapture2.NextKeepsInv | food-capture2.py:85-128 | every pass keeps the slot invariant and adds to the end of the sends exactly the one it reports as delivered |
| FoodCapture2.Steps | food-capture2.py:84-128 | one pass per trigger, one outcome per trigger |
| FoodCapture2.StepsKeepsInv | food-capture2.py:84-128 | a whole run keeps the slot invariant, and the sends it adds are exactly those of its Delivered outcomes, in order |
| FoodCapture2.CaptureScript.constructor | food-capture2.py:21-22 | no digest, and last capture time 0 |
| FoodCapture2.CaptureScript.Iterate | food-capture2.py:85-128 | one pass does what `Next` describes |
| FoodCapture2.CaptureScript.Run | food-capture2.py:84-128 | the final state and every outcome are those of `Steps`; the slot invariant is kept and no send is taken back |
| FoodCapture23.OnEnter | food-capture2.3.py:96-130 | the Enter branch: three reads thrown away, the fourth saved, gated and sent, then the sleep after a send; a failed fourth read ends the loop |
| FoodCapture23.Next | food-capture2.3.py:84-134 | one pass: the preview read (`continue` when it fails), then Enter, ESC or nothing |
| FoodCapture23.OtherKeys | food-capture2.3.py:94-134 | ESC ends the loop; any key other than 13 and 27 changes nothing |
| FoodCapture23.FailedCaptureCrashes | food-capture2.3.py:98-105 | the capture is the fourth read after the preview; if it fails the loop ends with nothing saved or sent |
| FoodCapture23.CaptureGated | food-capture2.3.py:98-130 | the file name uses the compact timestamp and the caption the readable one; only a capture that is sent is followed by the sleep |
| FoodCapture23.FirstCaptureSent | food-capture2.3.py:81-115 | the first capture is always sent |
| FoodCapture23.NextKeepsInv | food-capture2.3.py:84-134 | every pass keeps the slot invariant and one cooldown per send, and adds to the end of the sends exactly the one it reports as delivered |
| FoodCapture23.Steps | food-capture2.3.py:83-134 | the passes over a run of inputs, stopping once a pass ends the loop |
| FoodCapture23.StepsKeepsInv | food-capture2.3.py:83-134 | a whole run keeps the invariant, and the sends it adds are exactly those of its Delivered outcomes, in order |
| FoodCapture23.CaptureLoop.constructor | food-capture2.3.py:81 | the loop starts with an empty slot |
| FoodCapture23.CaptureLoop.CaptureOnEnter | food-capture2.3.py:98-130 | the Enter branch does what `OnEnter` describes |
| FoodCapture23.CaptureLoop.Iterate | food-capture2.3.py:84-134 | one pass does what `Next` describes and keeps the invariant |
| FoodCapture23.CaptureLoop.Run | food-capture2.3.py:83-134 | the final state and every outcome are those of `Steps`; the invariant is kept |
| FoodCapture22.OnEnter | food-capture2.2.py:104-137 | the Enter branch: five reads thrown away, the sixth saved, gated and sent; a failed sixth read ends the loop |
| FoodCapture22.Next | food-capture2.2.py:93-141 | one pass: the preview read (`continue` when it fails), then Enter, ESC or nothing |
| FoodCapture22.OtherKeys | food-capture2.2.py:102-141 | ESC ends the loop; any key other than 13 and 27 changes nothing |
| FoodCapture22.FailedCaptureCrashes | food-capture2.2.py:107-115 | the capture is the sixth read after the preview; if it fails the loop ends with nothing saved or sent |
| FoodCapture22.CaptureGated | food-capture2.2.py:107-137 | a good capture is saved as captured_<timestamp>_food.jpg and gated and sent with "Chinese Dragon Cafe\n\nCaptured at <timestamp>" |
| FoodCapture22.FirstCaptureSent | food-capture2.2.py:118-125 | the first capture is always sent |
| FoodCapture22.BackToBackCapturesSent | food-capture2.2.py:104-137 | no cooldown: two Enters in a row both capture, and differing captures are both sent |
| FoodCapture22.NextKeepsInv | food-capture2.2.py:93-141 | every pass keeps the slot invariant and adds to the end of the sends exactly the one it reports as delivered |
| FoodCapture22.Steps | food-capture2.2.py:92-141 | the passes over a run of inputs, stopping once a pass ends the loop |
| FoodCapture22.StepsKeepsInv | food-capture2.2.py:92-141 | a whole run keeps the slot invariant, and the sends it adds are exactly those of its Delivered outcomes, in order |
| FoodCapture22.CaptureLoop.constructor | food-capture2.2.py:21 | the loop starts with an empty slot |
| FoodCapture22.CaptureLoop.CaptureOnEnter | food-capture2.2.py:107-137 | the Enter branch does what `OnEnter` describes |
| FoodCapture22.CaptureLoop.Iterate | food-capture2.2.py:93-141 | one pass does what `Next` describes |
| FoodCapture22.CaptureLoop.Run | food-capture2.2.py:92-141 | the final state and every outcome are those of `Steps`; the slot invariant is kept |

## Left out

- OpenCV display is not modelled. This covers `imshow`, `resize`, `namedWindow`, the `draw_code_box` overlay and the window setup; none of it affects the loop's state.
- JPEG encoding and SHA-256 are not modelled. The digest of a saved frame is the parameter `digestOf`, which is only compared.
- The HTTP upload and the OpenAI analysis are not modelled. The status code is an input, and every loop has the analysis call commented out.
- The background thread of `food-capture2.4.py` is not modelled. Dispatching appends to `dispatched`; nothing is claimed about when or whether the thread finishes.
- Time is not modelled. `time.time()`, `datetime.now().strftime` and `time.sleep` are inputs or a counter (`sleptSeconds`). The 0.1 s sleeps in `get_fresh_frame` and in the `2.2` flush are left out, as is the time the cooldown sleep takes.
- `KeyboardInterrupt` and the `finally` cleanup are not modelled. Neither is an `EOFError` from `input()` in `food-capture2.py`. `Run` simply ends with its input sequence.
- Logging, `.env` configuration and `os.makedirs` are not modelled. `food-capture2.py:16` and `food-capture2.2.py:16` use `openai_api_key`, `bot_token` and `chat_id` without defining them, so those two scripts would stop at load time; only their loops are modelled.
- A file name `cv2.imwrite` cannot write is not modelled in `food-capture2.4.py`. This happens for a '/' typed into the order code, which names a missing subdirectory. It also happens for a code long enough to push the file name past the file-system's name limit. `cv2.imwrite` then writes nothing, `compute_image_hash` raises on the missing file, and the loop ends; the model saves and dispatches the capture. `FilenameKeepsCodeChars` only shows that the '/' reaches the path.
- A transport failure of the synchronous send is not modelled. In `food-capture2.py`, `2.2` and `2.3`, `send_telegram_photo` calls `requests.post` inside the loop, and the surrounding `try` catches only `KeyboardInterrupt`. A connection error therefore ends the loop. `requests.post` has no timeout, so the loop can also block for good. The model takes every send to be answered with a status and records it as `Delivered`.
- The older scripts `food-capture.py`, `food-capture.0.1.py`, `food-capture1.py` and `food-capture2.1.py` are not part of this model. Neither are the commented-out blocks.
- FoodCapture2.CaptureScript.Run: runs every trigger of its finite input. The script's own loop never ends by itself.
