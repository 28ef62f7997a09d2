/** food-capture2.3.py: a live preview loop in which Enter captures and ESC
    exits. The capture is the read after a three-read flush; it is saved
    under a compact timestamp, checked against the last digest, sent
    synchronously with a caption carrying a readable timestamp, and followed
    by a three-second sleep. */
module FoodCapture23 {
  import opened Text
  import opened Capture

  const CooldownSeconds: nat := 3
  const FlushReads: nat := 3
  const Description: string := "Chinese Dragon Cafe - Milagiriya"

  /** One pass's inputs: the raw cv2.waitKey(1) result (-1 when no key was
      pressed), the two timestamps datetime.now() formats ("%Y%m%d_%H%M%S"
      for the file, "%b %-d, %Y %-I:%M:%S %p" for the caption), and the
      status code the upload would be answered with. */
  datatype Tick = Tick(key: int, timestamp: string, timestamp1: string, status: int)

  /** The locals of main() that outlive a pass, the time spent sleeping, and
      the number of camera reads made so far. */
  datatype Loop = Loop(store: Store, sleptSeconds: nat, running: bool, camReads: nat)

  function Start(existing: set<string>, camReads: nat): Loop {
    Loop(Store(None, existing, []), 0, true, camReads)
  }

  /** The slot invariant, and one cooldown slept per upload. */
  ghost predicate Inv(s: Loop) {
    StoreInv(s.store) && s.sleptSeconds == CooldownSeconds * |s.store.sent|
  }

  /** The Enter branch from the state after the preview read: three reads
      thrown away, the fourth saved and gated. A failed fourth read reaches
      cv2.imwrite as None, which raises out of the loop. */
  function OnEnter(s: Loop, feed: seq<Grab>, digestOf: Frame -> Digest, t: Tick): (r: (Loop, Outcome))
  {
    var g := GrabAt(feed, s.camReads + FlushReads);
    var s1 := s.(camReads := s.camReads + FlushReads + 1);
    if g.NoFrame? then
      (s1.(running := false), Crashed)
    else
      var path := PhotoPath(PlainFilename(t.timestamp));
      var (st, o) := SaveAndSend(s.store, path, digestOf(g.frame), PlainCaption(Description, t.timestamp1), t.status);
      (s1.(store := st, sleptSeconds := s.sleptSeconds + if o.Delivered? then CooldownSeconds else 0), o)
  }

  /** One pass of `while True`: the preview read, the key, and its branch. */
  function Next(s: Loop, feed: seq<Grab>, digestOf: Frame -> Digest, t: Tick): (r: (Loop, Outcome))
    requires s.running
  {
    var s1 := s.(camReads := s.camReads + 1);
    if GrabAt(feed, s.camReads).NoFrame? then
      (s1, NoPreview)
    else if t.key == 13 then
      OnEnter(s1, feed, digestOf, t)
    else if t.key == 27 then
      (s1.(running := false), Exited)
    else
      (s1, Ignored)
  }

  /** ESC ends the loop; every key other than Enter and ESC only costs the
      preview read. */
  lemma OtherKeys(s: Loop, feed: seq<Grab>, digestOf: Frame -> Digest, t: Tick)
    requires s.running && GrabAt(feed, s.camReads).Grabbed? && t.key != 13
    ensures Next(s, feed, digestOf, t) ==
            if t.key == 27 then (s.(running := false, camReads := s.camReads + 1), Exited)
            else (s.(camReads := s.camReads + 1), Ignored)
  {
  }

  /** Enter captures the fourth read after the preview; when that read
      fails the loop ends with nothing saved or sent. */
  lemma FailedCaptureCrashes(s: Loop, feed: seq<Grab>, digestOf: Frame -> Digest, t: Tick)
    requires s.running && GrabAt(feed, s.camReads).Grabbed? && t.key == 13
    requires GrabAt(feed, s.camReads + 4).NoFrame?
    ensures Next(s, feed, digestOf, t) == (s.(running := false, camReads := s.camReads + 5), Crashed)
  {
  }

  /** A good capture is saved under the compact timestamp, gated, and sent
      with a caption that carries the readable timestamp; only a capture
      that is sent is followed by the sleep. */
  lemma CaptureGated(s: Loop, feed: seq<Grab>, digestOf: Frame -> Digest, t: Tick)
    requires s.running && GrabAt(feed, s.camReads).Grabbed? && t.key == 13
    requires GrabAt(feed, s.camReads + 4).Grabbed?
    ensures var (s', o) := Next(s, feed, digestOf, t);
            var d := digestOf(GrabAt(feed, s.camReads + 4).frame);
            var path := PhotoPath("captured_" + t.timestamp + "_food.jpg");
            var caption := "Chinese Dragon Cafe - Milagiriya\n\nCaptured at " + t.timestamp1;
            && (s'.store, o) == SaveAndSend(s.store, path, d, caption, t.status)
            && s'.running && s'.camReads == s.camReads + 5
            && s'.sleptSeconds == s.sleptSeconds + if o.Delivered? then 3 else 0
  {
    assert PlainFilename(t.timestamp) == "captured_" + t.timestamp + "_food.jpg";
    assert PlainCaption(Description, t.timestamp1) == "Chinese Dragon Cafe - Milagiriya\n\nCaptured at " + t.timestamp1;
  }

  /** The slot starts empty, so the first capture is always sent. */
  lemma FirstCaptureSent(existing: set<string>, camReads: nat, feed: seq<Grab>, digestOf: Frame -> Digest, t: Tick)
    requires GrabAt(feed, camReads).Grabbed? && GrabAt(feed, camReads + 4).Grabbed? && t.key == 13
    ensures Next(Start(existing, camReads), feed, digestOf, t).1.Delivered?
  {
  }

  /** Every pass keeps the invariant, and adds to the end of the sends
      exactly the one it reports as delivered, if any. */
  lemma NextKeepsInv(s: Loop, feed: seq<Grab>, digestOf: Frame -> Digest, t: Tick)
    requires s.running && Inv(s)
    ensures var (s', o) := Next(s, feed, digestOf, t);
            && Inv(s')
            && s'.store.sent == s.store.sent + if o.Delivered? then [o.delivery] else []
  {
  }

  /** The loop over a finite run of inputs: one pass per input until the
      inputs run out or a pass ends the loop. The final state and the
      outcome of every pass that ran. */
  function Steps(s: Loop, feed: seq<Grab>, digestOf: Frame -> Digest, script: seq<Tick>): (r: (Loop, seq<Outcome>))
    ensures |r.1| <= |script|
    ensures |r.1| < |script| ==> !r.0.running
    decreases |script|
  {
    if script == [] || !s.running then (s, [])
    else
      var pass := Next(s, feed, digestOf, script[0]);
      var rest := Steps(pass.0, feed, digestOf, script[1..]);
      (rest.0, [pass.1] + rest.1)
  }

  /** A whole run keeps the invariant, and the sends it adds are exactly
      those its passes report as delivered, in order. */
  lemma {:induction false} StepsKeepsInv(s: Loop, feed: seq<Grab>, digestOf: Frame -> Digest, script: seq<Tick>)
    requires Inv(s)
    ensures var (fin, os) := Steps(s, feed, digestOf, script);
            Inv(fin) && fin.store.sent == s.store.sent + Deliveries(os)
    decreases |script|
  {
    if script != [] && s.running {
      var pass := Next(s, feed, digestOf, script[0]);
      NextKeepsInv(s, feed, digestOf, script[0]);
      StepsKeepsInv(pass.0, feed, digestOf, script[1..]);
      var rest := Steps(pass.0, feed, digestOf, script[1..]);
      assert Steps(s, feed, digestOf, script) == (rest.0, [pass.1] + rest.1);
      DeliveriesCons(s.store.sent, pass.1, rest.1);
    }
  }

  /** The state of main() as an object: `cam` is the capture device and
      `digestOf` the SHA-256 of the file cv2.imwrite makes of a frame. */
  class CaptureLoop {
    const cam: Camera
    const digestOf: Frame -> Digest
    var lastImageHash: Option<Digest>
    var files: set<string>
    var sent: seq<Delivery>
    var sleptSeconds: nat
    var running: bool

    function State(): Loop
      reads this, cam
    {
      Loop(Store(lastImageHash, files, sent), sleptSeconds, running, cam.readCount)
    }

    ghost predicate Valid()
      reads this, cam
    {
      Inv(State())
    }

    constructor (cam: Camera, digestOf: Frame -> Digest, existing: set<string>)
      ensures this.cam == cam && this.digestOf == digestOf
      ensures Valid() && State() == Start(existing, cam.readCount)
    {
      this.cam := cam;
      this.digestOf := digestOf;
      lastImageHash := None;
      files := existing;
      sent := [];
      sleptSeconds := 0;
      running := true;
    }

    /** The Enter branch, after the preview read. */
    method CaptureOnEnter(t: Tick) returns (o: Outcome)
      requires running
      modifies this, cam
      ensures (State(), o) == OnEnter(old(State()), cam.feed, digestOf, t)
    {
      Discard(cam, FlushReads);
      var g := cam.Read();
      var path := PhotoPath(PlainFilename(t.timestamp));
      if g.NoFrame? {
        running := false;  // cv2.imwrite(full_path, None) raises out of the loop
        return Crashed;
      }
      files := files + {path};
      var currentHash := digestOf(g.frame);
      if Some(currentHash) == lastImageHash {
        files := files - {path};
        return Duplicate(path);
      }
      lastImageHash := Some(currentHash);
      var caption := PlainCaption(Description, t.timestamp1);
      var delivery := Delivery(Upload(path, caption), t.status, t.status == 200);
      sent := sent + [delivery];
      sleptSeconds := sleptSeconds + CooldownSeconds;
      o := Delivered(delivery);
    }

    /** One pass of `while True`. */
    method Iterate(t: Tick) returns (o: Outcome)
      requires Valid() && running
      modifies this, cam
      ensures Valid()
      ensures (State(), o) == Next(old(State()), cam.feed, digestOf, t)
      ensures old(sent) <= sent
    {
      var preview := cam.Read();
      if preview.NoFrame? {
        return NoPreview;
      }
      if t.key == 13 {
        o := CaptureOnEnter(t);
      } else if t.key == 27 {
        running := false;
        o := Exited;
      } else {
        o := Ignored;
      }
      NextKeepsInv(old(State()), cam.feed, digestOf, t);
    }

    /** The loop over a finite run of inputs: the new state and the outcome
        of every pass are those of `Steps`. */
    method Run(script: seq<Tick>) returns (outcomes: seq<Outcome>)
      requires Valid() && running
      modifies this, cam
      ensures Valid()
      ensures (State(), outcomes) == Steps(old(State()), cam.feed, digestOf, script)
      ensures old(sent) <= sent
    {
      outcomes := [];
      var passes := 0;
      assert script[0..] == script;
      assert State() == old(State());
      assert outcomes + Steps(State(), cam.feed, digestOf, script).1 == Steps(State(), cam.feed, digestOf, script).1;
      while passes < |script| && running
        invariant Valid()
        invariant passes <= |script|
        invariant Steps(old(State()), cam.feed, digestOf, script) ==
                  (Steps(State(), cam.feed, digestOf, script[passes..]).0,
                   outcomes + Steps(State(), cam.feed, digestOf, script[passes..]).1)
        invariant old(sent) <= sent
        decreases |script| - passes
      {
        ghost var before := State();
        var o := Iterate(script[passes]);
        assert script[passes..][0] == script[passes] && script[passes..][1..] == script[passes + 1..];
        assert Steps(before, cam.feed, digestOf, script[passes..]) ==
               (Steps(State(), cam.feed, digestOf, script[passes + 1..]).0,
                [o] + Steps(State(), cam.feed, digestOf, script[passes + 1..]).1);
        AppendAssoc(outcomes, [o], Steps(State(), cam.feed, digestOf, script[passes + 1..]).1);
        outcomes := outcomes + [o];
        passes := passes + 1;
      }
      assert Steps(State(), cam.feed, digestOf, script[passes..]) == (State(), []);
      assert outcomes + [] == outcomes;
    }
  }
}
