/** food-capture2.4.py: a live preview loop in which the operator types an
    order number, Enter captures, ESC exits. Each unique capture is handed
    to a background sender and followed by a two-second cooldown sleep. */
module FoodCapture24 {
  import opened Text
  import opened Capture

  const CooldownSeconds: nat := 2
  const Description: string := "Chinese Dragon Cafe - Milagiriya Branch"

  /** What a key press asks for. */
  datatype KeyCmd = Type(c: char) | Backspace | Enter | Escape | NoCommand

  /** cv2.waitKey(1) & 0xFF followed by the loop's if/elif chain. Python's
      `& 0xFF` keeps the low byte of the two's-complement value, which for
      every int (also -1, "no key") is the Euclidean remainder by 256. */
  function Classify(key: int): (cmd: KeyCmd)
    ensures cmd.Type? <==> 32 <= key % 256 <= 126
    ensures cmd.Type? ==> cmd.c as int == key % 256
    ensures cmd == Backspace <==> key % 256 == 8
    ensures cmd == Enter <==> key % 256 == 13
    ensures cmd == Escape <==> key % 256 == 27
  {
    var k := key % 256;
    if 32 <= k <= 126 then Type(k as char)
    else if k == 8 then Backspace
    else if k == 13 then Enter
    else if k == 27 then Escape
    else NoCommand
  }

  /** The pending order code after an editing key: a printable key appends
      its character, backspace drops the last one (code_text[:-1], so an
      empty code stays empty), anything else leaves it. */
  function EditCode(code: string, cmd: KeyCmd): string {
    match cmd
    case Type(c) => code + [c]
    case Backspace => if code == [] then [] else code[..|code| - 1]
    case _ => code
  }

  /** The order code after a run of key presses none of which is Enter or
      ESC, starting from `code`. */
  function Typed(code: string, keys: seq<int>): string
    decreases |keys|
  {
    if keys == [] then code else Typed(EditCode(code, Classify(keys[0])), keys[1..])
  }

  /** Whatever is typed, the code holds printable ASCII only, so it never
      contains a line break. */
  lemma {:induction false} TypedPrintable(code: string, keys: seq<int>)
    requires Printable(code)
    ensures Printable(Typed(code, keys))
    decreases |keys|
  {
    if keys != [] {
      var next := EditCode(code, Classify(keys[0]));
      assert Printable(next);
      TypedPrintable(next, keys[1..]);
    }
  }

  /** Backspace undoes the character just typed. */
  lemma TypeThenBackspace(code: string, key: int)
    requires 32 <= key % 256 <= 126
    ensures EditCode(EditCode(code, Classify(key)), Backspace) == code
  {
    assert (code + [Classify(key).c])[..|code|] == code;
  }

  /** Typing "7", "A", backspace leaves the code "7". */
  lemma SevenABackspace()
    ensures Typed("", ['7' as int, 'A' as int, 8]) == "7"
  {
    var keys := ['7' as int, 'A' as int, 8];
    assert keys[0] % 256 == 55 && keys[1] % 256 == 65 && keys[2] % 256 == 8;
    assert Classify(keys[0]) == Type('7');
    assert Classify(keys[1]) == Type('A');
    assert Classify(keys[2]) == Backspace;
    assert keys[1..] == ['A' as int, 8] && keys[1..][1..] == [8] && [8][1..] == [];
    calc {
      Typed("", keys);
      Typed(EditCode("", Type('7')), keys[1..]);
      { assert EditCode("", Type('7')) == "7"; }
      Typed("7", keys[1..]);
      Typed(EditCode("7", Type('A')), [8]);
      { assert EditCode("7", Type('A')) == "7A"; }
      Typed("7A", [8]);
      Typed(EditCode("7A", Backspace), []);
      { assert EditCode("7A", Backspace) == "7"; }
      Typed("7", []);
    }
  }

  /** The saved filename for an (already stripped) order code: colons in the
      timestamp become '-', spaces in the code become '_', and an empty code
      leaves its segment out. */
  function Filename(timestamp: string, itemCode: string): string {
    var stamp := ReplaceChar(timestamp, ':', '-');
    if itemCode != "" then
      "captured_" + stamp + "_" + ReplaceChar(itemCode, ' ', '_') + "_" + AiLabel + ".jpg"
    else
      "captured_" + stamp + "_" + AiLabel + ".jpg"
  }

  /** Only the timestamp's colons are sanitised: a colon typed into the code
      reaches the filename. */
  lemma FilenameColons(timestamp: string, itemCode: string)
    ensures ':' in Filename(timestamp, itemCode) <==> ':' in itemCode
  {
    var stamp := ReplaceChar(timestamp, ':', '-');
    var safe := ReplaceChar(itemCode, ' ', '_');
    ReplaceCharMembers(timestamp, ':', '-', ':');
    ReplaceCharMembers(itemCode, ' ', '_', ':');
    var pre, post := "captured_", "_food.jpg";
    assert ':' !in pre && ':' !in post && ':' !in "_";
    if itemCode != "" {
      assert Filename(timestamp, itemCode) == pre + stamp + "_" + safe + post;
    } else {
      assert Filename(timestamp, itemCode) == pre + stamp + post;
    }
  }

  /** Only the code's spaces are sanitised: the filename has a space exactly
      when the timestamp has one. */
  lemma FilenameSpaces(timestamp: string, itemCode: string)
    ensures ' ' in Filename(timestamp, itemCode) <==> ' ' in timestamp
  {
    var stamp := ReplaceChar(timestamp, ':', '-');
    var safe := ReplaceChar(itemCode, ' ', '_');
    ReplaceCharMembers(timestamp, ':', '-', ' ');
    ReplaceCharMembers(itemCode, ' ', '_', ' ');
    var pre, post := "captured_", "_food.jpg";
    assert ' ' !in pre && ' ' !in post && ' ' !in "_";
    if itemCode != "" {
      assert Filename(timestamp, itemCode) == pre + stamp + "_" + safe + post;
    } else {
      assert Filename(timestamp, itemCode) == pre + stamp + post;
    }
  }

  /** Every character of the code other than a space reaches the filename
      unchanged: nothing else, '/' included, is sanitised. */
  lemma FilenameKeepsCodeChars(timestamp: string, itemCode: string, c: char)
    requires c != ' ' && c in itemCode
    ensures c in Filename(timestamp, itemCode)
  {
    var stamp := ReplaceChar(timestamp, ':', '-');
    var safe := ReplaceChar(itemCode, ' ', '_');
    var i :| 0 <= i < |itemCode| && itemCode[i] == c;
    assert safe[i] == c;
    var name := Filename(timestamp, itemCode);
    assert name == "captured_" + stamp + "_" + safe + "_food.jpg";
    assert name[|"captured_" + stamp + "_"| + i] == c;
  }

  /** The caption lines: the order line only for a non-empty code, then the
      venue, then the capture time. */
  function CaptionLines(itemCode: string, timestamp: string): seq<string> {
    (if itemCode != "" then ["Order Number: " + itemCode] else []) +
    [Description, "Captured at " + timestamp]
  }

  /** "\n".join(caption_parts) */
  function Caption(itemCode: string, timestamp: string): string {
    Join(CaptionLines(itemCode, timestamp), '\n')
  }

  /** The caption splits back into its lines: an order line exactly when the
      code is non-empty, the venue, the capture time, in that order. */
  lemma CaptionSplits(itemCode: string, timestamp: string)
    requires '\n' !in itemCode && '\n' !in timestamp
    ensures var lines := Split(Caption(itemCode, timestamp), '\n');
            && (itemCode != "" ==> lines == ["Order Number: " + itemCode, Description, "Captured at " + timestamp])
            && (itemCode == "" ==> lines == [Description, "Captured at " + timestamp])
  {
    var parts := CaptionLines(itemCode, timestamp);
    assert '\n' !in "Order Number: " + itemCode;
    assert '\n' !in "Captured at " + timestamp;
    assert forall i :: 0 <= i < |parts| ==> '\n' !in parts[i];
    SplitJoin(parts, '\n');
  }

  /** One input to a pass of the loop: the key code waitKey returns and the
      timestamp datetime.now() would format. */
  datatype Tick = Tick(key: int, timestamp: string)

  /** The locals of main() that outlive a pass, and the number of camera
      reads made so far. */
  datatype Loop = Loop(
    codeText: string,
    lastImageHash: Option<Digest>,
    files: set<string>,       // the files under PHOTO_DIR
    dispatched: seq<Upload>,  // what send_telegram_in_background was handed, in order
    sleptSeconds: nat,        // time spent in the cooldown sleep
    running: bool,
    camReads: nat)

  /** The state main() starts its loop in. */
  function Start(existing: set<string>, camReads: nat): Loop {
    Loop("", None, existing, [], 0, true, camReads)
  }

  /** What every pass keeps: the code holds printable characters only, the
      slot is empty exactly until the first upload, and one cooldown was
      slept per upload. */
  ghost predicate Inv(s: Loop) {
    && Printable(s.codeText)
    && (s.lastImageHash == None <==> s.dispatched == [])
    && s.sleptSeconds == CooldownSeconds * |s.dispatched|
  }

  /** The Enter branch, from the state after the preview read and for the
      stripped code `itemCode`: two reads thrown away, the third saved under
      a name built from the code, then the gate. cv2.imwrite of a failed
      read raises, and nothing catches it, so the loop ends. */
  function OnEnter(s: Loop, feed: seq<Grab>, digestOf: Frame -> Digest, timestamp: string, itemCode: string): (r: (Loop, Outcome))
  {
    var g := GrabAt(feed, s.camReads + 2);
    var s1 := s.(camReads := s.camReads + 3);
    if g.NoFrame? then
      (s1.(running := false), Crashed)
    else
      var path := PhotoPath(Filename(timestamp, itemCode));
      var written := s.files + {path};
      var d := digestOf(g.frame);
      if IsDuplicate(s.lastImageHash, d) then
        (s1.(files := written - {path}, codeText := ""), Duplicate(path))
      else
        var upload := Upload(path, Caption(itemCode, timestamp));
        (s1.(files := written, lastImageHash := Some(d), dispatched := s.dispatched + [upload],
             codeText := "", sleptSeconds := s.sleptSeconds + CooldownSeconds),
         Dispatched(upload))
  }

  /** One pass of `while True` for the command its key selects: the preview
      read, then the branch. */
  function Step(s: Loop, feed: seq<Grab>, digestOf: Frame -> Digest, cmd: KeyCmd, timestamp: string): (r: (Loop, Outcome))
    requires s.running
  {
    var s1 := s.(camReads := s.camReads + 1);
    if GrabAt(feed, s.camReads).NoFrame? then
      (s1, NoPreview)
    else
      match cmd
      case Type(_) => (s1.(codeText := EditCode(s.codeText, cmd)), Edited)
      case Backspace => (s1.(codeText := EditCode(s.codeText, cmd)), Edited)
      case Enter => OnEnter(s1, feed, digestOf, timestamp, Strip(s.codeText))
      case Escape => (s1.(running := false), Exited)
      case NoCommand => (s1, Ignored)
  }

  /** One pass of `while True`: the preview read, the key, and its branch. */
  function Next(s: Loop, feed: seq<Grab>, digestOf: Frame -> Digest, t: Tick): (r: (Loop, Outcome))
    requires s.running
  {
    Step(s, feed, digestOf, Classify(t.key), t.timestamp)
  }

  /** The Enter branch keeps the invariant for any printable code, and adds
      to the uploads exactly the one it reports as dispatched, if any. */
  lemma OnEnterKeepsInv(s: Loop, feed: seq<Grab>, digestOf: Frame -> Digest, timestamp: string, itemCode: string)
    requires Inv(s)
    ensures var (s', o) := OnEnter(s, feed, digestOf, timestamp, itemCode);
            Inv(s') && s'.dispatched == s.dispatched + if o.Dispatched? then [o.upload] else []
  {
  }

  /** Every pass keeps the invariant when the key is printable ASCII, and
      adds to the end of the uploads exactly the one it reports as
      dispatched, if any. */
  lemma StepKeepsInv(s: Loop, feed: seq<Grab>, digestOf: Frame -> Digest, cmd: KeyCmd, timestamp: string)
    requires s.running && Inv(s)
    requires cmd.Type? ==> 32 <= cmd.c as int <= 126
    ensures var (s', o) := Step(s, feed, digestOf, cmd, timestamp);
            Inv(s') && s'.dispatched == s.dispatched + if o.Dispatched? then [o.upload] else []
  {
    var s1 := s.(camReads := s.camReads + 1);
    var r := Step(s, feed, digestOf, cmd, timestamp);
    if GrabAt(feed, s.camReads).Grabbed? {
      match cmd
      case Type(c) =>
        assert r == (s1.(codeText := s.codeText + [c]), Edited);
        assert Printable(s.codeText + [c]) by {
          assert forall i :: 0 <= i < |s.codeText| ==> (s.codeText + [c])[i] == s.codeText[i];
        }
      case Backspace =>
        assert r == (s1.(codeText := if s.codeText == [] then [] else s.codeText[..|s.codeText| - 1]), Edited);
      case Enter =>
        assert r == OnEnter(s1, feed, digestOf, timestamp, Strip(s.codeText));
        OnEnterKeepsInv(s1, feed, digestOf, timestamp, Strip(s.codeText));
      case Escape =>
        assert r == (s1.(running := false), Exited);
      case NoCommand =>
        assert r == (s1, Ignored);
    } else {
      assert r == (s1, NoPreview);
    }
    assert s.dispatched + [] == s.dispatched;
  }

  /** Every pass keeps the invariant, and adds to the end of the uploads
      exactly the one it reports as dispatched, if any. */
  lemma NextKeepsInv(s: Loop, feed: seq<Grab>, digestOf: Frame -> Digest, t: Tick)
    requires s.running && Inv(s)
    ensures var (s', o) := Next(s, feed, digestOf, t);
            Inv(s') && s'.dispatched == s.dispatched + if o.Dispatched? then [o.upload] else []
  {
    StepKeepsInv(s, feed, digestOf, Classify(t.key), t.timestamp);
  }

  /** A failed preview read ends the pass before any key is read. */
  lemma NoPreviewSkipsPass(s: Loop, feed: seq<Grab>, digestOf: Frame -> Digest, t: Tick)
    requires s.running && GrabAt(feed, s.camReads).NoFrame?
    ensures Next(s, feed, digestOf, t) == (s.(camReads := s.camReads + 1), NoPreview)
  {
  }

  /** A printable key appends exactly its character; nothing else changes
      but the one camera read. */
  lemma PrintableKeyAppends(s: Loop, feed: seq<Grab>, digestOf: Frame -> Digest, t: Tick)
    requires s.running && GrabAt(feed, s.camReads).Grabbed?
    requires 32 <= t.key % 256 <= 126
    ensures Next(s, feed, digestOf, t) ==
            (s.(codeText := s.codeText + [(t.key % 256) as char], camReads := s.camReads + 1), Edited)
  {
  }

  /** Backspace removes the last character, and an empty code stays empty. */
  lemma BackspaceErases(s: Loop, feed: seq<Grab>, digestOf: Frame -> Digest, t: Tick)
    requires s.running && GrabAt(feed, s.camReads).Grabbed?
    requires t.key % 256 == 8
    ensures var (s', o) := Next(s, feed, digestOf, t);
            && o == Edited && s' == s.(codeText := s'.codeText, camReads := s.camReads + 1)
            && (s.codeText == [] ==> s'.codeText == [])
            && (s.codeText != [] ==> s'.codeText + [s.codeText[|s.codeText| - 1]] == s.codeText)
  {
  }

  /** Any other key (255 when none was pressed) changes nothing: no capture,
      no exit, no edit. */
  lemma OtherKeysIgnored(s: Loop, feed: seq<Grab>, digestOf: Frame -> Digest, t: Tick)
    requires s.running && GrabAt(feed, s.camReads).Grabbed?
    requires var k := t.key % 256; k != 8 && k != 13 && k != 27 && !(32 <= k <= 126)
    ensures Next(s, feed, digestOf, t) == (s.(camReads := s.camReads + 1), Ignored)
  {
  }

  /** ESC ends the loop and changes nothing else. */
  lemma EscapeExits(s: Loop, feed: seq<Grab>, digestOf: Frame -> Digest, t: Tick)
    requires s.running && GrabAt(feed, s.camReads).Grabbed?
    requires t.key % 256 == 27
    ensures Next(s, feed, digestOf, t) == (s.(running := false, camReads := s.camReads + 1), Exited)
  {
  }

  /** Enter captures with the code as str.strip() leaves it, after the
      preview read. */
  lemma EnterUsesStrippedCode(s: Loop, feed: seq<Grab>, digestOf: Frame -> Digest, t: Tick)
    requires s.running && GrabAt(feed, s.camReads).Grabbed?
    requires t.key % 256 == 13
    ensures Next(s, feed, digestOf, t) ==
            OnEnter(s.(camReads := s.camReads + 1), feed, digestOf, t.timestamp, Strip(s.codeText))
  {
  }

  /** The capture is the third read after the preview; when it fails,
      cv2.imwrite raises and the loop ends with nothing saved or sent. */
  lemma FailedCaptureCrashes(s: Loop, feed: seq<Grab>, digestOf: Frame -> Digest, timestamp: string, itemCode: string)
    requires GrabAt(feed, s.camReads + 2).NoFrame?
    ensures OnEnter(s, feed, digestOf, timestamp, itemCode) ==
            (s.(running := false, camReads := s.camReads + 3), Crashed)
  {
  }

  /** A capture whose digest equals the slot: the file just written is
      removed, the code is cleared, and nothing is dispatched, slept or
      remembered. */
  lemma DuplicateDiscarded(s: Loop, feed: seq<Grab>, digestOf: Frame -> Digest, timestamp: string, itemCode: string)
    requires GrabAt(feed, s.camReads + 2).Grabbed?
    requires s.lastImageHash == Some(digestOf(GrabAt(feed, s.camReads + 2).frame))
    ensures var path := PhotoPath(Filename(timestamp, itemCode));
            OnEnter(s, feed, digestOf, timestamp, itemCode) ==
            (s.(files := s.files - {path}, codeText := "", camReads := s.camReads + 3), Duplicate(path))
  {
    var path := PhotoPath(Filename(timestamp, itemCode));
    assert (s.files + {path}) - {path} == s.files - {path};
  }

  /** A capture whose digest differs from the slot: the file stays, its
      digest takes the slot, exactly one upload of it is dispatched with the
      caption of the code, the code is cleared and the cooldown is slept. */
  lemma UniqueDispatched(s: Loop, feed: seq<Grab>, digestOf: Frame -> Digest, timestamp: string, itemCode: string)
    requires GrabAt(feed, s.camReads + 2).Grabbed?
    requires s.lastImageHash != Some(digestOf(GrabAt(feed, s.camReads + 2).frame))
    ensures var path := PhotoPath(Filename(timestamp, itemCode));
            var upload := Upload(path, Caption(itemCode, timestamp));
            OnEnter(s, feed, digestOf, timestamp, itemCode) ==
            (s.(files := s.files + {path},
                lastImageHash := Some(digestOf(GrabAt(feed, s.camReads + 2).frame)),
                dispatched := s.dispatched + [upload],
                codeText := "",
                sleptSeconds := s.sleptSeconds + CooldownSeconds,
                camReads := s.camReads + 3),
             Dispatched(upload))
  {
  }

  /** A saved capture is either deleted or dispatched, never both and never
      neither: its file is gone exactly when no upload was added. */
  lemma DeletedOrDispatched(s: Loop, feed: seq<Grab>, digestOf: Frame -> Digest, timestamp: string, itemCode: string)
    requires GrabAt(feed, s.camReads + 2).Grabbed?
    ensures var s' := OnEnter(s, feed, digestOf, timestamp, itemCode).0;
            var path := PhotoPath(Filename(timestamp, itemCode));
            && (path !in s'.files <==> s'.dispatched == s.dispatched)
            && (path in s'.files <==> s'.dispatched == s.dispatched + [Upload(path, Caption(itemCode, timestamp))])
  {
    var path := PhotoPath(Filename(timestamp, itemCode));
    var upload := Upload(path, Caption(itemCode, timestamp));
    assert s.dispatched + [upload] != s.dispatched by {
      assert |s.dispatched + [upload]| == |s.dispatched| + 1;
    }
  }

  /** The slot starts empty and stays empty until the first upload, so the
      first capture is never a duplicate, whatever code was typed before it. */
  lemma FirstCaptureDispatched(s: Loop, feed: seq<Grab>, digestOf: Frame -> Digest, t: Tick)
    requires s.running && s.lastImageHash == None
    requires GrabAt(feed, s.camReads).Grabbed? && GrabAt(feed, s.camReads + 3).Grabbed?
    requires t.key % 256 == 13
    ensures Next(s, feed, digestOf, t).1 ==
            Dispatched(Upload(PhotoPath(Filename(t.timestamp, Strip(s.codeText))), Caption(Strip(s.codeText), t.timestamp)))
  {
    EnterUsesStrippedCode(s, feed, digestOf, t);
    UniqueDispatched(s.(camReads := s.camReads + 1), feed, digestOf, t.timestamp, Strip(s.codeText));
  }

  /** The same scene captured by two Enter presses in consecutive passes:
      the first capture is dispatched, the second is found a duplicate,
      its file removed, and nothing more is dispatched. */
  lemma SameSceneTwiceDuplicate(s: Loop, feed: seq<Grab>, digestOf: Frame -> Digest, t1: Tick, t2: Tick)
    requires s.running && t1.key % 256 == 13 && t2.key % 256 == 13
    requires forall i :: s.camReads <= i < s.camReads + 8 ==> GrabAt(feed, i).Grabbed?
    requires digestOf(GrabAt(feed, s.camReads + 7).frame) == digestOf(GrabAt(feed, s.camReads + 3).frame)
    requires s.lastImageHash != Some(digestOf(GrabAt(feed, s.camReads + 3).frame))
    ensures var (s1, o1) := Next(s, feed, digestOf, t1);
            && o1.Dispatched? && s1.running
            && var (s2, o2) := Next(s1, feed, digestOf, t2);
               o2.Duplicate? && s2.dispatched == s1.dispatched
  {
    assert GrabAt(feed, s.camReads).Grabbed? && GrabAt(feed, s.camReads + 3).Grabbed?;
    var p := s.(camReads := s.camReads + 1);
    EnterUsesStrippedCode(s, feed, digestOf, t1);
    UniqueDispatched(p, feed, digestOf, t1.timestamp, Strip(s.codeText));
    var s1 := Next(s, feed, digestOf, t1).0;
    assert s1.camReads == s.camReads + 4;
    assert GrabAt(feed, s1.camReads).Grabbed? && GrabAt(feed, s1.camReads + 3).Grabbed?;
    var q := s1.(camReads := s1.camReads + 1);
    EnterUsesStrippedCode(s1, feed, digestOf, t2);
    DuplicateDiscarded(q, feed, digestOf, t2.timestamp, Strip(s1.codeText));
  }

  /** Typing 7, A, backspace and then Enter captures with the order code
      "7": the file name and the caption both carry it. */
  lemma SevenABackspaceEnter(existing: set<string>, feed: seq<Grab>, digestOf: Frame -> Digest, ts: string)
    requires forall i :: 0 <= i < 7 ==> GrabAt(feed, i).Grabbed?
    ensures var s0 := Start(existing, 0);
            var s1 := Next(s0, feed, digestOf, Tick('7' as int, ts)).0;
            var s2 := Next(s1, feed, digestOf, Tick('A' as int, ts)).0;
            var s3 := Next(s2, feed, digestOf, Tick(8, ts)).0;
            Next(s3, feed, digestOf, Tick(13, ts)).1 ==
              Dispatched(Upload(PhotoPath(Filename(ts, "7")), Caption("7", ts)))
  {
    var s0 := Start(existing, 0);
    assert GrabAt(feed, 0).Grabbed?;
    PrintableKeyAppends(s0, feed, digestOf, Tick('7' as int, ts));
    var s1 := Next(s0, feed, digestOf, Tick('7' as int, ts)).0;
    assert s1 == s0.(codeText := "7", camReads := 1);
    assert GrabAt(feed, 1).Grabbed?;
    PrintableKeyAppends(s1, feed, digestOf, Tick('A' as int, ts));
    var s2 := Next(s1, feed, digestOf, Tick('A' as int, ts)).0;
    assert s2 == s0.(codeText := "7A", camReads := 2);
    assert GrabAt(feed, 2).Grabbed?;
    BackspaceErases(s2, feed, digestOf, Tick(8, ts));
    var s3 := Next(s2, feed, digestOf, Tick(8, ts)).0;
    assert s3.codeText == "7" by {
      assert s3.codeText + ['A'] == "7A";
    }
    assert s3 == s0.(codeText := "7", camReads := 3);
    assert GrabAt(feed, 3).Grabbed? && GrabAt(feed, 6).Grabbed?;
    EnterUsesStrippedCode(s3, feed, digestOf, Tick(13, ts));
    assert Strip("7") == "7" by {
      assert "7"[0] == '7' && !IsSpace('7');
      assert AllSpace("");
      StripOf("", "7", "");
      assert "" + "7" + "" == "7";
    }
    UniqueDispatched(s3.(camReads := 4), feed, digestOf, ts, "7");
  }

  /** The loop over a finite run of inputs: one pass per input until the
      inputs run out or a pass ends the loop. The final state and the
      outcome of every pass that ran. */
  function Steps(s: Loop, feed: seq<Grab>, digestOf: Frame -> Digest, script: seq<Tick>): (r: (Loop, seq<Outcome>))
    ensures |r.1| <= |script|
    ensures |r.1| < |script| ==> !r.0.running
    decreases |script|
  {
    if script == [] || !s.running then (s, [])
    else
      var pass := Next(s, feed, digestOf, script[0]);
      var rest := Steps(pass.0, feed, digestOf, script[1..]);
      (rest.0, [pass.1] + rest.1)
  }

  /** A whole run keeps the invariant, and the uploads it adds are exactly
      those its passes report as dispatched, in order. */
  lemma {:induction false} StepsKeepsInv(s: Loop, feed: seq<Grab>, digestOf: Frame -> Digest, script: seq<Tick>)
    requires Inv(s)
    ensures var r := Steps(s, feed, digestOf, script);
            Inv(r.0) && r.0.dispatched == s.dispatched + Uploads(r.1)
    decreases |script|
  {
    if script != [] && s.running {
      var pass := Next(s, feed, digestOf, script[0]);
      NextKeepsInv(s, feed, digestOf, script[0]);
      StepsKeepsInv(pass.0, feed, digestOf, script[1..]);
      var rest := Steps(pass.0, feed, digestOf, script[1..]);
      assert Steps(s, feed, digestOf, script) == (rest.0, [pass.1] + rest.1);
      UploadsCons(s.dispatched, pass.1, rest.1);
    }
  }

  /** One Enter press whose reads succeed, with `d` the digest of its
      capture: the pass is dispatched or found a duplicate, a duplicate
      exactly when `d` is in the slot, and either way the slot then holds
      `d` and the loop goes on. */
  lemma EnterPass(s: Loop, feed: seq<Grab>, digestOf: Frame -> Digest, t: Tick, d: Digest)
    requires s.running && t.key % 256 == 13
    requires GrabAt(feed, s.camReads).Grabbed? && GrabAt(feed, s.camReads + 3).Grabbed?
    requires d == digestOf(GrabAt(feed, s.camReads + 3).frame)
    ensures var r := Next(s, feed, digestOf, t);
            && r.0.running && r.0.camReads == s.camReads + 4 && r.0.lastImageHash == Some(d)
            && (r.1.Dispatched? || r.1.Duplicate?)
            && (r.1.Duplicate? <==> IsDuplicate(s.lastImageHash, d))
  {
    var p := s.(camReads := s.camReads + 1);
    var code := Strip(s.codeText);
    EnterUsesStrippedCode(s, feed, digestOf, t);
    if s.lastImageHash == Some(d) {
      DuplicateDiscarded(p, feed, digestOf, t.timestamp, code);
    } else {
      UniqueDispatched(p, feed, digestOf, t.timestamp, code);
    }
  }

  /** The inputs of a run of Enter presses from read `c` on: every key is
      Enter, every read succeeds, and ds[i] is the digest of the capture of
      pass i, its fourth read. */
  ghost predicate EnterRun(feed: seq<Grab>, digestOf: Frame -> Digest, c: nat, script: seq<Tick>, ds: seq<Digest>) {
    && |ds| == |script|
    && (forall i :: 0 <= i < |script| ==> script[i].key % 256 == 13)
    && (forall i :: c <= i < c + 4 * |script| ==> GrabAt(feed, i).Grabbed?)
    && (forall i :: 0 <= i < |ds| ==> ds[i] == digestOf(GrabAt(feed, c + 4 * i + 3).frame))
  }

  /** The first pass of such a run, and the run of the rest from four reads
      later. */
  lemma EnterRunTail(feed: seq<Grab>, digestOf: Frame -> Digest, c: nat, script: seq<Tick>, ds: seq<Digest>)
    requires EnterRun(feed, digestOf, c, script, ds) && script != []
    ensures script[0].key % 256 == 13
    ensures GrabAt(feed, c).Grabbed? && GrabAt(feed, c + 3).Grabbed?
    ensures ds[0] == digestOf(GrabAt(feed, c + 3).frame)
    ensures EnterRun(feed, digestOf, c + 4, script[1..], ds[1..])
  {
    assert GrabAt(feed, c + 4 * 0).Grabbed?;
    assert GrabAt(feed, c + 4 * 0 + 3).Grabbed?;
    assert ds[0] == digestOf(GrabAt(feed, c + 4 * 0 + 3).frame);
    forall i | 0 <= i < |ds| - 1
      ensures ds[1..][i] == digestOf(GrabAt(feed, c + 4 + 4 * i + 3).frame)
    {
      assert c + 4 + 4 * i + 3 == c + 4 * (i + 1) + 3;
    }
  }

  /** The verdicts of a run, from those of its first pass and of the rest. */
  lemma VerdictsShift(last: Option<Digest>, ds: seq<Digest>, o: Outcome, os: seq<Outcome>, all: seq<Outcome>)
    requires ds != [] && |os| == |ds| - 1 && all == [o] + os
    requires (o.Dispatched? || o.Duplicate?) && (o.Duplicate? <==> IsDuplicate(last, ds[0]))
    requires forall i :: 0 <= i < |os| ==>
               (os[i].Dispatched? || os[i].Duplicate?) &&
               (os[i].Duplicate? <==> Verdicts(Some(ds[0]), ds[1..])[i])
    ensures |all| == |ds|
    ensures forall i :: 0 <= i < |all| ==>
              (all[i].Dispatched? || all[i].Duplicate?) &&
              (all[i].Duplicate? <==> Verdicts(last, ds)[i])
  {
    VerdictsCons(last, ds);
    forall i | 0 < i < |all|
      ensures all[i] == os[i - 1]
    {
    }
  }

  /** A run of Enter presses whose reads all succeed, with `ds` the digests
      of the captures in turn: every pass is dispatched or found a
      duplicate, and it is a duplicate exactly where the single-slot gate's
      verdict on `ds` says so. */
  lemma {:induction false} EnterRunVerdicts(s: Loop, feed: seq<Grab>, digestOf: Frame -> Digest, script: seq<Tick>, ds: seq<Digest>)
    requires s.running && EnterRun(feed, digestOf, s.camReads, script, ds)
    ensures var r := Steps(s, feed, digestOf, script);
            && |r.1| == |script| && r.0.running
            && r.0.lastImageHash == Latest(s.lastImageHash, ds)
            && forall i :: 0 <= i < |r.1| ==>
                 (r.1[i].Dispatched? || r.1[i].Duplicate?) &&
                 (r.1[i].Duplicate? <==> Verdicts(s.lastImageHash, ds)[i])
    decreases |script|
  {
    if script != [] {
      EnterRunTail(feed, digestOf, s.camReads, script, ds);
      EnterPass(s, feed, digestOf, script[0], ds[0]);
      var pass := Next(s, feed, digestOf, script[0]);
      EnterRunVerdicts(pass.0, feed, digestOf, script[1..], ds[1..]);
      var rest := Steps(pass.0, feed, digestOf, script[1..]);
      var r := Steps(s, feed, digestOf, script);
      assert r == (rest.0, [pass.1] + rest.1);
      VerdictsCons(s.lastImageHash, ds);
      assert r.0.lastImageHash == Latest(s.lastImageHash, ds);
      VerdictsShift(s.lastImageHash, ds, pass.1, rest.1, r.1);
    }
  }

  /** A, B, A is not caught: from an empty slot, three Enter presses whose
      captures are the scene A, then a different scene B, then A again are
      all dispatched, since the slot only remembers the latest capture. */
  lemma SeparatedRepeatDispatched(s: Loop, feed: seq<Grab>, digestOf: Frame -> Digest, script: seq<Tick>)
    requires s.running && s.lastImageHash == None
    requires |script| == 3 && forall i :: 0 <= i < 3 ==> script[i].key % 256 == 13
    requires forall i :: s.camReads <= i < s.camReads + 12 ==> GrabAt(feed, i).Grabbed?
    requires digestOf(GrabAt(feed, s.camReads + 11).frame) == digestOf(GrabAt(feed, s.camReads + 3).frame)
    requires digestOf(GrabAt(feed, s.camReads + 7).frame) != digestOf(GrabAt(feed, s.camReads + 3).frame)
    ensures var os := Steps(s, feed, digestOf, script).1;
            |os| == 3 && os[0].Dispatched? && os[1].Dispatched? && os[2].Dispatched?
  {
    var a := digestOf(GrabAt(feed, s.camReads + 3).frame);
    var b := digestOf(GrabAt(feed, s.camReads + 7).frame);
    var ds := [a, b, a];
    assert forall i :: 0 <= i < 3 ==> ds[i] == digestOf(GrabAt(feed, s.camReads + 4 * i + 3).frame);
    EnterRunVerdicts(s, feed, digestOf, script, ds);
    FirstAndSeparatedRepeatPass(a, b);
  }

  /** The state of main() as an object: its fields are the loop's locals,
      `cam` the capture device, and `digestOf` the SHA-256 of the file
      cv2.imwrite makes of a frame. */
  class CaptureLoop {
    const cam: Camera
    const digestOf: Frame -> Digest
    var codeText: string
    var lastImageHash: Option<Digest>
    var files: set<string>
    var dispatched: seq<Upload>
    var sleptSeconds: nat
    var running: bool

    function State(): Loop
      reads this, cam
    {
      Loop(codeText, lastImageHash, files, dispatched, sleptSeconds, running, cam.readCount)
    }

    ghost predicate Valid()
      reads this, cam
    {
      Inv(State())
    }

    constructor (cam: Camera, digestOf: Frame -> Digest, existing: set<string>)
      ensures this.cam == cam && this.digestOf == digestOf
      ensures Valid() && State() == Start(existing, cam.readCount)
    {
      this.cam := cam;
      this.digestOf := digestOf;
      codeText := "";
      lastImageHash := None;
      files := existing;
      dispatched := [];
      sleptSeconds := 0;
      running := true;
    }

    /** The Enter branch after the preview read, for the stripped code. */
    method CaptureOnEnter(timestamp: string, itemCode: string) returns (o: Outcome)
      requires running
      modifies this, cam
      ensures (State(), o) == OnEnter(old(State()), cam.feed, digestOf, timestamp, itemCode)
    {
      Discard(cam, 2);
      var g := cam.Read();
      var path := PhotoPath(Filename(timestamp, itemCode));
      if g.NoFrame? {
        running := false;  // cv2.imwrite(full_path, None) raises out of the loop
        return Crashed;
      }
      files := files + {path};
      var currentHash := digestOf(g.frame);
      if Some(currentHash) == lastImageHash {
        files := files - {path};
        codeText := "";
        return Duplicate(path);
      }
      lastImageHash := Some(currentHash);
      var upload := Upload(path, Caption(itemCode, timestamp));
      dispatched := dispatched + [upload];  // send_telegram_in_background
      codeText := "";
      sleptSeconds := sleptSeconds + CooldownSeconds;
      o := Dispatched(upload);
    }

    /** One pass of `while True`. */
    method Iterate(t: Tick) returns (o: Outcome)
      requires Valid() && running
      modifies this, cam
      ensures Valid()
      ensures (State(), o) == Next(old(State()), cam.feed, digestOf, t)
      ensures old(dispatched) <= dispatched
    {
      ghost var s0 := State();
      var preview := cam.Read();
      if preview.NoFrame? {
        return NoPreview;
      }
      ghost var s1 := s0.(camReads := s0.camReads + 1);
      var cmd := Classify(t.key);
      match cmd {
        case Type(c) =>
          codeText := codeText + [c];
          o := Edited;
          assert State() == s1.(codeText := EditCode(s0.codeText, cmd));
        case Backspace =>
          codeText := codeText[..if codeText == [] then 0 else |codeText| - 1];  // code_text[:-1]
          o := Edited;
          assert State() == s1.(codeText := EditCode(s0.codeText, cmd));
        case Enter =>
          var itemCode := Strip(codeText);
          o := CaptureOnEnter(t.timestamp, itemCode);
          assert (State(), o) == OnEnter(s1, cam.feed, digestOf, t.timestamp, Strip(s0.codeText));
        case Escape =>
          running := false;
          o := Exited;
          assert State() == s1.(running := false);
        case NoCommand =>
          o := Ignored;
          assert State() == s1;
      }
      NextKeepsInv(s0, cam.feed, digestOf, t);
    }

    /** The loop over a finite run of inputs: the new state and the outcome
        of every pass are those of `Steps`. */
    method Run(script: seq<Tick>) returns (outcomes: seq<Outcome>)
      requires Valid() && running
      modifies this, cam
      ensures Valid()
      ensures (State(), outcomes) == Steps(old(State()), cam.feed, digestOf, script)
      ensures old(dispatched) <= dispatched
    {
      outcomes := [];
      var passes := 0;
      assert script[0..] == script;
      assert State() == old(State());
      assert outcomes + Steps(State(), cam.feed, digestOf, script).1 == Steps(State(), cam.feed, digestOf, script).1;
      while passes < |script| && running
        invariant Valid()
        invariant passes <= |script|
        invariant Steps(old(State()), cam.feed, digestOf, script) ==
                  (Steps(State(), cam.feed, digestOf, script[passes..]).0,
                   outcomes + Steps(State(), cam.feed, digestOf, script[passes..]).1)
        invariant old(dispatched) <= dispatched
        decreases |script| - passes
      {
        ghost var before := State();
        var o := Iterate(script[passes]);
        assert script[passes..][0] == script[passes] && script[passes..][1..] == script[passes + 1..];
        assert Steps(before, cam.feed, digestOf, script[passes..]) ==
               (Steps(State(), cam.feed, digestOf, script[passes + 1..]).0,
                [o] + Steps(State(), cam.feed, digestOf, script[passes + 1..]).1);
        AppendAssoc(outcomes, [o], Steps(State(), cam.feed, digestOf, script[passes + 1..]).1);
        outcomes := outcomes + [o];
        passes := passes + 1;
      }
      assert Steps(State(), cam.feed, digestOf, script[passes..]) == (State(), []);
      assert outcomes + [] == outcomes;
    }
  }
}
