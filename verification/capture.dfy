/** What the capture scripts share: frames and camera reads, the saved-file
    and caption formats of the scripts without code entry, the upload
    success rule, and the single-slot duplicate gate on image digests. */
module Capture {
  import opened Text

  datatype Option<T> = None | Some(value: T)

  /** A frame is opaque: only its identity matters to the loop. */
  datatype Frame = Frame(id: nat)

  /** The (ret, frame) pair of VideoCapture.read(): a frame, or ret == False
      with frame None. */
  datatype Grab = Grabbed(frame: Frame) | NoFrame

  /** The hexadecimal SHA-256 digest of a saved file; only compared. */
  type Digest = string

  /** An upload handed to the messaging endpoint: file path and caption. */
  datatype Upload = Upload(path: string, caption: string)

  /** A synchronous upload with the status code the endpoint answered and
      whether the script reported it as sent. */
  datatype Delivery = Delivery(upload: Upload, status: int, reportedSent: bool)

  /** What one pass of a capture loop did. */
  datatype Outcome =
    | NoPreview                   // the preview read failed: `continue` before any key is read
    | Ignored                     // a key that selects no branch
    | Edited                      // the pending order code changed
    | Exited                      // ESC: the loop breaks
    | CoolingDown                 // a trigger inside the cooldown window
    | ReadFailed                  // the fresh read failed and the script noticed
    | Crashed                     // cv2.imwrite was handed the None of a failed read and raised
    | Duplicate(path: string)     // saved, found equal to the last digest, removed
    | Dispatched(upload: Upload)  // handed to a background sender
    | Delivered(delivery: Delivery)  // sent synchronously

  const PhotoDir: string := "./image"
  const AiLabel: string := "food"

  /** os.path.join(PHOTO_DIR, filename) for a relative filename. */
  function PhotoPath(filename: string): string {
    PhotoDir + "/" + filename
  }

  /** The only status the scripts report as a successful send. */
  predicate UploadSucceeded(status: int) {
    status == 200
  }

  /** captured_<timestamp>_food.jpg, the filename of food-capture2.py,
      2.2 and 2.3. */
  function PlainFilename(timestamp: string): string {
    "captured_" + timestamp + "_" + AiLabel + ".jpg"
  }

  /** Two plain captures land in the same file exactly when their timestamps
      are equal; with one-second timestamps the later write replaces the
      earlier file. */
  lemma PlainPathsCollide(t1: string, t2: string)
    ensures PhotoPath(PlainFilename(t1)) == PhotoPath(PlainFilename(t2)) <==> t1 == t2
  {
    var p1, p2 := PhotoPath(PlainFilename(t1)), PhotoPath(PlainFilename(t2));
    var pre := PhotoDir + "/" + "captured_";
    var post := "_" + AiLabel + ".jpg";
    assert p1 == pre + t1 + post;
    assert p2 == pre + t2 + post;
    if p1 == p2 {
      assert |t1| == |t2|;
      assert t1 == p1[|pre|..|pre| + |t1|];
      assert t2 == p2[|pre|..|pre| + |t2|];
    }
  }

  /** f"{description}\n\nCaptured at {timestamp}". */
  function PlainCaption(description: string, timestamp: string): string {
    description + "\n\nCaptured at " + timestamp
  }

  /** The plain caption reads as three lines: the description, a blank line,
      and the capture time. */
  lemma PlainCaptionLines(description: string, timestamp: string)
    requires '\n' !in description && '\n' !in timestamp
    ensures Split(PlainCaption(description, timestamp), '\n') ==
            [description, "", "Captured at " + timestamp]
  {
    var parts := [description, "", "Captured at " + timestamp];
    assert '\n' !in "Captured at " + timestamp;
    assert Join(parts, '\n') == PlainCaption(description, timestamp) by {
      assert Join(parts[2..], '\n') == parts[2];
      assert Join(parts[1..], '\n') == "" + "\n" + parts[2];
    }
    SplitJoin(parts, '\n');
  }

  // ----- the single-slot duplicate gate -----

  /** The digest held in last_image_hash after the saved captures `saved`,
      starting from `last`: a duplicate leaves the slot as it is, but the
      slot then already holds that digest, so it is always the latest one. */
  function Latest(last: Option<Digest>, saved: seq<Digest>): Option<Digest> {
    if saved == [] then last else Some(saved[|saved| - 1])
  }

  /** The duplicate test: the new digest equals the one in the slot. */
  predicate IsDuplicate(last: Option<Digest>, d: Digest) {
    last == Some(d)
  }

  /** The gate's verdict on each saved capture in turn: true for a
      duplicate (equal to the slot), false for a capture that goes on to be
      sent. */
  function Verdicts(last: Option<Digest>, saved: seq<Digest>): (v: seq<bool>)
    ensures |v| == |saved|
    decreases |saved|
  {
    if saved == [] then []
    else [IsDuplicate(last, saved[0])] + Verdicts(Some(saved[0]), saved[1..])
  }

  /** One more saved capture is judged against the latest digest only. */
  lemma {:induction false} VerdictsSnoc(last: Option<Digest>, saved: seq<Digest>, d: Digest)
    ensures Verdicts(last, saved + [d]) == Verdicts(last, saved) + [IsDuplicate(Latest(last, saved), d)]
    decreases |saved|
  {
    if saved != [] {
      assert (saved + [d])[1..] == saved[1..] + [d];
      VerdictsSnoc(Some(saved[0]), saved[1..], d);
    }
  }

  /** The first capture is judged against `last`, the rest against the
      slot it leaves, which holds the first capture's digest. */
  lemma VerdictsCons(last: Option<Digest>, saved: seq<Digest>)
    requires saved != []
    ensures Verdicts(last, saved) == [IsDuplicate(last, saved[0])] + Verdicts(Some(saved[0]), saved[1..])
    ensures Latest(last, saved) == Latest(Some(saved[0]), saved[1..])
  {
  }

  /** Single-slot memory: a capture is a duplicate exactly when it equals
      the capture saved just before it (the first is compared with the
      initial slot). Nothing older is remembered. */
  lemma {:induction false} VerdictAt(last: Option<Digest>, saved: seq<Digest>, i: nat)
    requires i < |saved|
    ensures Verdicts(last, saved)[i] <==>
            if i == 0 then last == Some(saved[0]) else saved[i] == saved[i - 1]
    decreases i
  {
    if i > 0 {
      VerdictAt(Some(saved[0]), saved[1..], i - 1);
    }
  }

  /** Starting from None, the first capture is never a duplicate, and A, B, A
      is not caught: the third capture only meets B. */
  lemma FirstAndSeparatedRepeatPass(a: Digest, b: Digest)
    requires a != b
    ensures Verdicts(None, [a])[0] == false
    ensures Verdicts(None, [a, b, a]) == [false, false, false]
  {
    VerdictAt(None, [a], 0);
    VerdictAt(None, [a, b, a], 0);
    VerdictAt(None, [a, b, a], 1);
    VerdictAt(None, [a, b, a], 2);
  }

  /** The uploads a run of passes handed to a background sender, in order. */
  function Uploads(os: seq<Outcome>): seq<Upload>
    decreases |os|
  {
    if os == [] then [] else (if os[0].Dispatched? then [os[0].upload] else []) + Uploads(os[1..])
  }

  /** The synchronous sends a run of passes made, in order. */
  function Deliveries(os: seq<Outcome>): seq<Delivery>
    decreases |os|
  {
    if os == [] then [] else (if os[0].Delivered? then [os[0].delivery] else []) + Deliveries(os[1..])
  }

  /** Concatenation regroups freely. */
  lemma AppendAssoc<T>(a: seq<T>, b: seq<T>, c: seq<T>)
    ensures a + (b + c) == (a + b) + c
  {
  }

  /** The uploads of one pass, then those of the passes after it. */
  lemma UploadsCons(done: seq<Upload>, o: Outcome, os: seq<Outcome>)
    ensures (done + if o.Dispatched? then [o.upload] else []) + Uploads(os) == done + Uploads([o] + os)
  {
    assert ([o] + os)[0] == o && ([o] + os)[1..] == os;
  }

  /** The sends of one pass, then those of the passes after it. */
  lemma DeliveriesCons(done: seq<Delivery>, o: Outcome, os: seq<Outcome>)
    ensures (done + if o.Delivered? then [o.delivery] else []) + Deliveries(os) == done + Deliveries([o] + os)
  {
    assert ([o] + os)[0] == o && ([o] + os)[1..] == os;
  }

  // ----- saving, gating and sending, as the synchronous scripts do it -----

  /** What the synchronous scripts (food-capture2.py, 2.2, 2.3) keep across
      captures: the last accepted digest, the files in PHOTO_DIR, and the
      uploads made with the status each one got. */
  datatype Store = Store(lastImageHash: Option<Digest>, files: set<string>, sent: seq<Delivery>)

  /** No digest is held until a capture has been sent, and after that the
      slot is never empty again. */
  ghost predicate StoreInv(st: Store) {
    st.lastImageHash == None <==> st.sent == []
  }

  /** cv2.imwrite to `path`, the digest `d` of the saved file, the gate, and
      on a unique capture one send_telegram_photo answered with `status`.
      A duplicate's file is removed and nothing is sent; a unique capture
      keeps its file, takes the slot, and is sent once, reported as sent
      exactly when the status is 200. No other file is touched, and after
      either branch the slot holds d. */
  function SaveAndSend(st: Store, path: string, d: Digest, caption: string, status: int): (r: (Store, Outcome))
    ensures r.0.lastImageHash == Some(d)
    ensures r.0.files - {path} == st.files - {path}
    ensures IsDuplicate(st.lastImageHash, d) ==>
              path !in r.0.files && r.0.sent == st.sent && r.1 == Duplicate(path)
    ensures !IsDuplicate(st.lastImageHash, d) ==>
              && path in r.0.files
              && r.1.Delivered?
              && r.1.delivery.upload == Upload(path, caption) && r.1.delivery.status == status
              && (r.1.delivery.reportedSent <==> status == 200)
              && r.0.sent == st.sent + [r.1.delivery]
    ensures StoreInv(st) ==> StoreInv(r.0)
  {
    var written := st.files + {path};
    if IsDuplicate(st.lastImageHash, d) then
      (st.(files := written - {path}), Duplicate(path))
    else
      var delivery := Delivery(Upload(path, caption), status, UploadSucceeded(status));
      (Store(Some(d), written, st.sent + [delivery]), Delivered(delivery))
  }

  // ----- the camera -----

  /** Read number i of a device whose successive reads deliver `feed`;
      every read past the end of it fails. */
  function GrabAt(feed: seq<Grab>, i: nat): Grab {
    if i < |feed| then feed[i] else NoFrame
  }

  /** A capture device and the number of reads made from it so far. */
  class Camera {
    const feed: seq<Grab>
    var readCount: nat

    constructor (feed: seq<Grab>)
      ensures this.feed == feed && readCount == 0
    {
      this.feed := feed;
      readCount := 0;
    }

    /** What read number i (counting from 0) delivers. */
    function At(i: nat): Grab {
      GrabAt(feed, i)
    }

    /** cap.read() */
    method Read() returns (g: Grab)
      modifies this
      ensures readCount == old(readCount) + 1
      ensures g == At(old(readCount))
    {
      g := At(readCount);
      readCount := readCount + 1;
    }
  }

  /** for _ in range(n): cap.read() -- the buffered frames thrown away. */
  method Discard(cam: Camera, n: nat)
    modifies cam
    ensures cam.readCount == old(cam.readCount) + n
  {
    for i := 0 to n
      invariant cam.readCount == old(cam.readCount) + i
    {
      var _ := cam.Read();
    }
  }

  /** get_fresh_frame(cap, attempts): exactly `attempts` readCount, and the result
      of the last one. With attempts == 0 Python finds `ret` unbound and
      raises; None stands for that. */
  method GetFreshFrame(cam: Camera, attempts: nat) returns (r: Option<Grab>)
    modifies cam
    ensures cam.readCount == old(cam.readCount) + attempts
    ensures attempts == 0 ==> r == None
    ensures attempts > 0 ==> r == Some(cam.At(old(cam.readCount) + attempts - 1))
  {
    r := None;
    for i := 0 to attempts
      invariant cam.readCount == old(cam.readCount) + i
      invariant i == 0 ==> r == None
      invariant i > 0 ==> r == Some(cam.At(old(cam.readCount) + i - 1))
    {
      var g := cam.Read();
      r := Some(g);
    }
  }
}
