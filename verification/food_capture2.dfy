/** food-capture2.py: each line read from standard input triggers a capture,
    unless the previous trigger that got through was less than three seconds
    ago. The frame is taken after a five-read flush, saved, checked against
    the last digest and sent synchronously. */
module FoodCapture2 {
  import opened Text
  import opened Capture

  const CooldownSeconds: real := 3.0
  const FlushAttempts: nat := 5
  const Description: string := "Food capture"

  /** One trigger: the clock (time.time()) when input() returned, the
      timestamp strftime("%Y%m%d_%H%M%S") gives, and the status code the
      upload would be answered with. */
  datatype Trigger = Trigger(now: real, timestamp: string, status: int)

  /** The module globals and the number of camera reads made so far. */
  datatype Loop = Loop(store: Store, lastCaptureTime: real, camReads: nat)

  /** The state before the first trigger: no digest, last_capture_time 0. */
  function Start(existing: set<string>, camReads: nat): Loop {
    Loop(Store(None, existing, []), 0.0, camReads)
  }

  /** The trigger gets through the cooldown gate. */
  predicate PassesCooldown(s: Loop, now: real) {
    !(now - s.lastCaptureTime < CooldownSeconds)
  }

  /** One pass of `while True` after input() returned. */
  function Next(s: Loop, feed: seq<Grab>, digestOf: Frame -> Digest, t: Trigger): (r: (Loop, Outcome))
  {
    if !PassesCooldown(s, t.now) then
      (s, CoolingDown)
    else
      var s1 := s.(lastCaptureTime := t.now, camReads := s.camReads + FlushAttempts);
      var g := GrabAt(feed, s.camReads + FlushAttempts - 1);
      if g.NoFrame? then
        (s1, ReadFailed)
      else
        var path := PhotoPath(PlainFilename(t.timestamp));
        var (st, o) := SaveAndSend(s.store, path, digestOf(g.frame), PlainCaption(Description, t.timestamp), t.status);
        (s1.(store := st), o)
  }

  /** A trigger inside the cooldown window does nothing at all: no read, no
      file, no upload, and last_capture_time is not moved. */
  lemma CoolingDownChangesNothing(s: Loop, feed: seq<Grab>, digestOf: Frame -> Digest, t: Trigger)
    requires t.now - s.lastCaptureTime < CooldownSeconds
    ensures Next(s, feed, digestOf, t) == (s, CoolingDown)
  {
  }

  /** A trigger that gets through moves last_capture_time to its own time
      before reading, whatever the read and the gate then decide, and makes
      exactly five reads. */
  lemma PassConsumesCooldown(s: Loop, feed: seq<Grab>, digestOf: Frame -> Digest, t: Trigger)
    requires PassesCooldown(s, t.now)
    ensures var (s', o) := Next(s, feed, digestOf, t);
            && s'.lastCaptureTime == t.now
            && s'.camReads == s.camReads + FlushAttempts
            && o != CoolingDown
  {
  }

  /** Whatever a trigger that got through led to (a failed read, a duplicate
      or a send), a second trigger less than three seconds later is ignored. */
  lemma RetriggerBlocked(s: Loop, feed: seq<Grab>, digestOf: Frame -> Digest, t1: Trigger, t2: Trigger)
    requires PassesCooldown(s, t1.now)
    requires t2.now - t1.now < CooldownSeconds
    ensures var s1 := Next(s, feed, digestOf, t1).0;
            Next(s1, feed, digestOf, t2) == (s1, CoolingDown)
  {
    PassConsumesCooldown(s, feed, digestOf, t1);
  }

  /** A failed read writes no file, keeps the digest and uploads nothing. */
  lemma FailedReadKeepsStore(s: Loop, feed: seq<Grab>, digestOf: Frame -> Digest, t: Trigger)
    requires PassesCooldown(s, t.now)
    requires GrabAt(feed, s.camReads + FlushAttempts - 1).NoFrame?
    ensures var (s', o) := Next(s, feed, digestOf, t);
            s'.store == s.store && o == ReadFailed
  {
  }

  /** A good read is saved as captured_<timestamp>_food.jpg and goes through
      the gate with the caption "Food capture\n\nCaptured at <timestamp>" and
      the status of its upload. */
  lemma GoodReadGated(s: Loop, feed: seq<Grab>, digestOf: Frame -> Digest, t: Trigger)
    requires PassesCooldown(s, t.now)
    requires GrabAt(feed, s.camReads + FlushAttempts - 1).Grabbed?
    ensures var (s', o) := Next(s, feed, digestOf, t);
            var d := digestOf(GrabAt(feed, s.camReads + FlushAttempts - 1).frame);
            var path := PhotoPath("captured_" + t.timestamp + "_food.jpg");
            (s'.store, o) == SaveAndSend(s.store, path, d, "Food capture\n\nCaptured at " + t.timestamp, t.status)
  {
    assert PlainFilename(t.timestamp) == "captured_" + t.timestamp + "_food.jpg";
    assert PlainCaption(Description, t.timestamp) == "Food capture\n\nCaptured at " + t.timestamp;
  }

  /** The store invariant holds across every pass, and the pass adds to the
      end of the sends exactly the one it reports as delivered, if any. */
  lemma NextKeepsInv(s: Loop, feed: seq<Grab>, digestOf: Frame -> Digest, t: Trigger)
    requires StoreInv(s.store)
    ensures var (s', o) := Next(s, feed, digestOf, t);
            && StoreInv(s'.store)
            && s'.store.sent == s.store.sent + if o.Delivered? then [o.delivery] else []
  {
  }

  /** The loop over a finite run of triggers, one pass each: the final
      state and the outcome of every pass. */
  function Steps(s: Loop, feed: seq<Grab>, digestOf: Frame -> Digest, script: seq<Trigger>): (r: (Loop, seq<Outcome>))
    ensures |r.1| == |script|
    decreases |script|
  {
    if script == [] then (s, [])
    else
      var pass := Next(s, feed, digestOf, script[0]);
      var rest := Steps(pass.0, feed, digestOf, script[1..]);
      (rest.0, [pass.1] + rest.1)
  }

  /** A whole run keeps the store invariant, and the sends it adds are
      exactly those its passes report as delivered, in order. */
  lemma {:induction false} StepsKeepsInv(s: Loop, feed: seq<Grab>, digestOf: Frame -> Digest, script: seq<Trigger>)
    requires StoreInv(s.store)
    ensures var (fin, os) := Steps(s, feed, digestOf, script);
            StoreInv(fin.store) && fin.store.sent == s.store.sent + Deliveries(os)
    decreases |script|
  {
    if script != [] {
      var pass := Next(s, feed, digestOf, script[0]);
      NextKeepsInv(s, feed, digestOf, script[0]);
      StepsKeepsInv(pass.0, feed, digestOf, script[1..]);
      var rest := Steps(pass.0, feed, digestOf, script[1..]);
      assert Steps(s, feed, digestOf, script) == (rest.0, [pass.1] + rest.1);
      DeliveriesCons(s.store.sent, pass.1, rest.1);
    }
  }

  /** The globals of the script as an object; `cam` is the capture device
      and `digestOf` the SHA-256 of the file cv2.imwrite makes of a frame. */
  class CaptureScript {
    const cam: Camera
    const digestOf: Frame -> Digest
    var lastImageHash: Option<Digest>
    var lastCaptureTime: real
    var files: set<string>
    var sent: seq<Delivery>

    function State(): Loop
      reads this, cam
    {
      Loop(Store(lastImageHash, files, sent), lastCaptureTime, cam.readCount)
    }

    ghost predicate Valid()
      reads this, cam
    {
      StoreInv(State().store)
    }

    constructor (cam: Camera, digestOf: Frame -> Digest, existing: set<string>)
      ensures this.cam == cam && this.digestOf == digestOf
      ensures Valid() && State() == Start(existing, cam.readCount)
    {
      this.cam := cam;
      this.digestOf := digestOf;
      lastImageHash := None;
      lastCaptureTime := 0.0;
      files := existing;
      sent := [];
    }

    /** One pass of `while True`, after input() returned. */
    method Iterate(t: Trigger) returns (o: Outcome)
      requires Valid()
      modifies this, cam
      ensures Valid()
      ensures (State(), o) == Next(old(State()), cam.feed, digestOf, t)
      ensures old(sent) <= sent
    {
      if t.now - lastCaptureTime < CooldownSeconds {
        return CoolingDown;
      }
      lastCaptureTime := t.now;
      var r := GetFreshFrame(cam, FlushAttempts);
      var g := r.value;
      if g.NoFrame? {
        return ReadFailed;
      }
      var path := PhotoPath(PlainFilename(t.timestamp));
      files := files + {path};  // cv2.imwrite
      var currentHash := digestOf(g.frame);
      if Some(currentHash) == lastImageHash {
        files := files - {path};  // os.remove
        return Duplicate(path);
      }
      lastImageHash := Some(currentHash);
      var caption := PlainCaption(Description, t.timestamp);
      var delivery := Delivery(Upload(path, caption), t.status, t.status == 200);
      sent := sent + [delivery];  // send_telegram_photo, then the status check
      o := Delivered(delivery);
      assert (State().store, o) == SaveAndSend(old(State().store), path, currentHash, caption, t.status);
    }

    /** The loop over a finite run of triggers: the new state and the
        outcome of every pass are those of `Steps`. */
    method Run(script: seq<Trigger>) returns (outcomes: seq<Outcome>)
      requires Valid()
      modifies this, cam
      ensures Valid()
      ensures (State(), outcomes) == Steps(old(State()), cam.feed, digestOf, script)
      ensures old(sent) <= sent
    {
      outcomes := [];
      assert script[0..] == script;
      assert State() == old(State());
      assert outcomes + Steps(State(), cam.feed, digestOf, script).1 == Steps(State(), cam.feed, digestOf, script).1;
      for i := 0 to |script|
        invariant Valid()
        invariant Steps(old(State()), cam.feed, digestOf, script) ==
                  (Steps(State(), cam.feed, digestOf, script[i..]).0,
                   outcomes + Steps(State(), cam.feed, digestOf, script[i..]).1)
        invariant old(sent) <= sent
      {
        ghost var before := State();
        var o := Iterate(script[i]);
        assert script[i..][0] == script[i] && script[i..][1..] == script[i + 1..];
        assert Steps(before, cam.feed, digestOf, script[i..]) ==
               (Steps(State(), cam.feed, digestOf, script[i + 1..]).0,
                [o] + Steps(State(), cam.feed, digestOf, script[i + 1..]).1);
        AppendAssoc(outcomes, [o], Steps(State(), cam.feed, digestOf, script[i + 1..]).1);
        outcomes := outcomes + [o];
      }
      assert script[|script|..] == [];
      assert outcomes + [] == outcomes;
    }
  }
}
