/** A model of the `WebCapture` controller: it loads a page, echoes load
    progress as '#' characters, waits for an optional pause once the page has
    loaded, then paints the page onto a surface and saves it.  The rendering
    engine is abstract: its content size is an input, and loading, painting
    and saving are effects appended to a log.  The timer that ends the pause
    is an explicit event. */
module Capture {
  import opened UrlGuess

  /** A C++ `int`. */
  type Int32 = x: int | -0x8000_0000 <= x < 0x8000_0000

  /** Two's-complement wrap-around of an integer into the `int` range. */
  function Wrap32(x: int): (r: Int32)
    ensures (x - r) % 0x1_0000_0000 == 0
    ensures -0x8000_0000 <= x < 0x8000_0000 ==> r == x
  {
    (x + 0x8000_0000) % 0x1_0000_0000 - 0x8000_0000
  }

  /** `m_pause = pause * 1000` as written: an `int` product, which wraps
      around for pauses beyond 2147483 seconds. */
  function WrappedPauseMillis(pause: Int32): Int32 {
    Wrap32(pause * 1000)
  }

  /** The product wraps to 0 for a pause of 2^29 seconds, so that the image is
      saved at once, and to a negative delay just past the limit. */
  lemma WrappedPauseLosesDelay()
    ensures WrappedPauseMillis(0x2000_0000) == 0
    ensures WrappedPauseMillis(2147484) < 0
  {
  }

  /** The longest pause, in seconds, whose milliseconds fit in an `int`. */
  const MaxPauseSeconds := 2147483

  /** The pause in milliseconds as the source evidently intends it: the exact
      product where it fits, and the nearest `int` beyond that.  A pause is
      zero, positive or negative exactly when the request's is. */
  function PauseMillis(pause: Int32): (ms: Int32)
    ensures ms == 0 <==> pause == 0
    ensures ms > 0 <==> pause > 0
    ensures -MaxPauseSeconds <= pause <= MaxPauseSeconds ==> ms == WrappedPauseMillis(pause) && ms / 1000 == pause
  {
    if pause > MaxPauseSeconds then 0x7fff_ffff
    else if pause < -MaxPauseSeconds then -0x8000_0000
    else pause * 1000
  }

  /** A pixel size. */
  datatype Size = Size(width: int, height: int)

  /** What the controller does to the world, in order. */
  datatype Effect =
    | LoadPage(url: Url)      // the page starts loading this URL
    | Hash                    // one '#' on standard output
    | Render(size: Size)      // the page is painted onto a transparent surface of this size
    | Save(fileName: string)  // the scaled surface is written to this file
    | Finished                // the `finished` signal

  /** The controller's state: the fields of `WebCapture`, whether the
      single-shot timer for `saveImage` is scheduled, and the effects so far.
      `pause` is in milliseconds. */
  datatype Session = Session(fileName: string, zoom: int, scale: int, width: int, height: int,
                             pause: int, percent: int, ok: bool, timerPending: bool,
                             effects: seq<Effect>)

  /** A new controller: zoom 100 and progress 0; the source leaves the other
      fields uninitialised until `load`. */
  const Initial := Session("", 100, 0, 0, 0, 0, 0, false, false, [])

  /** `load`: clears the load result and the progress, stores the request
      (the pause converted to milliseconds) and starts loading the page. */
  function LoadSpec(s: Session, url: Url, zoom: Int32, scale: Int32, fileName: string,
                    width: Int32, height: Int32, pause: Int32): Session
  {
    s.(ok := false, zoom := zoom, scale := scale, percent := 0, height := height, width := width,
       pause := PauseMillis(pause), fileName := fileName, effects := s.effects + [LoadPage(url)])
  }

  /** `n` '#' characters. */
  function Hashes(n: nat): (h: seq<Effect>)
    ensures |h| == n && forall k :: 0 <= k < n ==> h[k] == Hash
  {
    seq(n, _ => Hash)
  }

  /** `showProgress(p)`: nothing when `p` is not above the recorded progress;
      otherwise the loop prints one '#' per point of progress and, through
      the post-increment in its test, leaves the progress at `p + 1`. */
  function ProgressSpec(s: Session, p: int): Session {
    if s.percent >= p then s
    else s.(percent := p + 1, effects := s.effects + Hashes(p - s.percent))
  }

  /** The size captured: the content size, with each axis replaced by the
      requested one when that is not 0. */
  function CaptureSize(content: Size, width: int, height: int): (r: Size)
    ensures width != 0 ==> r.width == width
    ensures width == 0 ==> r.width == content.width
    ensures height != 0 ==> r.height == height
    ensures height == 0 ==> r.height == content.height
  {
    Size(if width != 0 then width else content.width, if height != 0 then height else content.height)
  }

  /** `saveImage`: after a failed load only the `finished` signal; otherwise
      paint at the capture size, save, and signal `finished` whatever the
      save returns. */
  function SaveImageSpec(s: Session, content: Size): Session {
    if !s.ok then s.(effects := s.effects + [Finished])
    else s.(effects := s.effects + [Render(CaptureSize(content, s.width, s.height)), Save(s.fileName), Finished])
  }

  /** `saveResult(ok)`: records the load result, then saves at once when
      there is no pause and otherwise schedules the timer, whatever `ok` is. */
  function SaveResultSpec(s: Session, ok: bool, content: Size): Session {
    var s' := s.(ok := ok);
    if s'.pause == 0 then SaveImageSpec(s', content) else s'.(timerPending := true)
  }

  /** The single-shot timer fires and runs `saveImage`. */
  function TimerSpec(s: Session, content: Size): Session {
    SaveImageSpec(s.(timerPending := false), content)
  }

  /** The events the page and the timer deliver to the controller. */
  datatype Event = Progress(percent: int) | LoadFinished(ok: bool, content: Size) | TimerExpired(content: Size)

  function Deliver(s: Session, e: Event): Session {
    match e
    case Progress(p) => ProgressSpec(s, p)
    case LoadFinished(ok, content) => SaveResultSpec(s, ok, content)
    case TimerExpired(content) => TimerSpec(s, content)
  }

  /** The state after a sequence of events, delivered in order. */
  function Replay(s: Session, events: seq<Event>): Session
    decreases |events|
  {
    if events == [] then s else Replay(Deliver(s, events[0]), events[1..])
  }

  predicate AllProgress(events: seq<Event>) {
    forall k :: 0 <= k < |events| ==> events[k].Progress?
  }

  /** The effects other than the '#' characters. */
  function Milestones(effects: seq<Effect>): seq<Effect>
    decreases |effects|
  {
    if effects == [] then []
    else if effects[0] == Hash then Milestones(effects[1..])
    else [effects[0]] + Milestones(effects[1..])
  }

  lemma {:induction false} MilestonesAppend(a: seq<Effect>, b: seq<Effect>)
    ensures Milestones(a + b) == Milestones(a) + Milestones(b)
    decreases |a|
  {
    if a == [] {
      assert a + b == b;
    } else {
      assert (a + b)[1..] == a[1..] + b;
      MilestonesAppend(a[1..], b);
    }
  }

  lemma {:induction false} MilestonesOfHashes(n: nat)
    ensures Milestones(Hashes(n)) == []
  {
    if n > 0 {
      assert Hashes(n)[1..] == Hashes(n - 1);
      MilestonesOfHashes(n - 1);
    }
  }

  lemma {:induction false} MilestonesWithoutHashes(effects: seq<Effect>)
    requires forall k :: 0 <= k < |effects| ==> effects[k] != Hash
    ensures Milestones(effects) == effects
    decreases |effects|
  {
    if effects != [] {
      MilestonesWithoutHashes(effects[1..]);
      assert [effects[0]] + effects[1..] == effects;
    }
  }

  lemma {:induction false} ReplayAppend(s: Session, a: seq<Event>, b: seq<Event>)
    ensures Replay(s, a + b) == Replay(Replay(s, a), b)
    decreases |a|
  {
    if a == [] {
      assert a + b == b;
    } else {
      assert (a + b)[1..] == a[1..] + b;
      ReplayAppend(Deliver(s, a[0]), a[1..], b);
    }
  }

  /** Progress events touch only the progress and print only '#': the
      recorded progress never decreases, and the request, the load result,
      the timer and every other effect stay as they were. */
  lemma {:induction false} ProgressOnlyPrints(s: Session, events: seq<Event>)
    requires AllProgress(events)
    ensures var r := Replay(s, events);
      && r == s.(percent := r.percent, effects := r.effects)
      && r.percent >= s.percent
      && |r.effects| >= |s.effects| && r.effects[..|s.effects|] == s.effects
      && Milestones(r.effects) == Milestones(s.effects)
    decreases |events|
  {
    if events != [] {
      var s' := ProgressSpec(s, events[0].percent);
      if s.percent < events[0].percent {
        MilestonesAppend(s.effects, Hashes(events[0].percent - s.percent));
        MilestonesOfHashes(events[0].percent - s.percent);
      }
      ProgressOnlyPrints(s', events[1..]);
      var r := Replay(s', events[1..]);
      assert r.effects[..|s.effects|] == r.effects[..|s'.effects|][..|s.effects|];
    }
  }

  /** How many '#' a series of progress reports prints: with every report at
      least two points above the previous one, each report after the first
      prints one '#' fewer than its step, because `showProgress` leaves the
      progress one above the value reported. */
  lemma {:induction false} HashesPrinted(s: Session, ps: seq<int>)
    requires |ps| > 0 && s.percent < ps[0]
    requires forall k :: 0 < k < |ps| ==> ps[k - 1] + 1 < ps[k]
    ensures var r := Replay(s, seq(|ps|, k requires 0 <= k < |ps| => Progress(ps[k])));
      && ps[|ps| - 1] - s.percent > 2 * (|ps| - 1)
      && r.percent == ps[|ps| - 1] + 1
      && r.effects == s.effects + Hashes(ps[|ps| - 1] - s.percent - (|ps| - 1))
    decreases |ps|
  {
    var events := seq(|ps|, k requires 0 <= k < |ps| => Progress(ps[k]));
    var s' := ProgressSpec(s, ps[0]);
    if |ps| == 1 {
      assert events[1..] == [];
    } else {
      var rest := ps[1..];
      assert events[1..] == seq(|rest|, k requires 0 <= k < |rest| => Progress(rest[k]));
      HashesPrinted(s', rest);
      var n1 := ps[0] - s.percent;
      var n2 := rest[|rest| - 1] - s'.percent - (|rest| - 1);
      assert Hashes(n1) + Hashes(n2) == Hashes(n1 + n2);
    }
  }

  /** The whole life of a capture after `load`: progress reports, one load
      result, then (only when there is a pause) more progress and the timer,
      then any further progress.  The `finished` signal comes exactly once;
      a successful load is painted at the capture size and saved once, a
      failed one is neither painted nor saved; no timer is left scheduled. */
  lemma SingleFinishedSignal(s: Session, pre: seq<Event>, ok: bool, content: Size,
                             mid: seq<Event>, timerContent: Size, post: seq<Event>)
    requires !s.timerPending
    requires AllProgress(pre) && AllProgress(mid) && AllProgress(post)
    ensures var trace := pre + [LoadFinished(ok, content)]
                         + (if s.pause == 0 then [] else mid + [TimerExpired(timerContent)]) + post;
      var r := Replay(s, trace);
      var size := CaptureSize(if s.pause == 0 then content else timerContent, s.width, s.height);
      && Milestones(r.effects) == Milestones(s.effects)
           + (if ok then [Render(size), Save(s.fileName), Finished] else [Finished])
      && r.ok == ok && !r.timerPending && r.percent >= s.percent
  {
    var tail := if s.pause == 0 then [] else mid + [TimerExpired(timerContent)];
    var trace := pre + [LoadFinished(ok, content)] + tail + post;
    ReplayAppend(s, pre + [LoadFinished(ok, content)] + tail, post);
    ReplayAppend(s, pre + [LoadFinished(ok, content)], tail);
    ReplayAppend(s, pre, [LoadFinished(ok, content)]);
    ProgressOnlyPrints(s, pre);
    var s1 := Replay(s, pre);
    assert Replay(s1, [LoadFinished(ok, content)]) == SaveResultSpec(s1, ok, content);
    var s2 := SaveResultSpec(s1, ok, content);
    var size := CaptureSize(if s.pause == 0 then content else timerContent, s.width, s.height);
    var added := if ok then [Render(size), Save(s.fileName), Finished] else [Finished];
    var s3 := Replay(s2, tail);
    MilestonesWithoutHashes(added);
    if s.pause == 0 {
      assert s3 == s2;
      MilestonesAppend(s1.effects, added);
    } else {
      ReplayAppend(s2, mid, [TimerExpired(timerContent)]);
      ProgressOnlyPrints(s2, mid);
      var s2' := Replay(s2, mid);
      assert Replay(s2', [TimerExpired(timerContent)]) == TimerSpec(s2', timerContent);
      MilestonesAppend(s2'.effects, added);
    }
    assert Milestones(s3.effects) == Milestones(s.effects) + added;
    ProgressOnlyPrints(s3, post);
  }

  /** With a pause, nothing is painted, saved or signalled between the load
      result and the timer, and the timer stays scheduled. */
  lemma DelayGating(s: Session, pre: seq<Event>, ok: bool, content: Size, mid: seq<Event>)
    requires s.pause != 0
    requires AllProgress(pre) && AllProgress(mid)
    ensures var r := Replay(s, pre + [LoadFinished(ok, content)] + mid);
      && Milestones(r.effects) == Milestones(s.effects)
      && r.timerPending && r.ok == ok
  {
    ReplayAppend(s, pre + [LoadFinished(ok, content)], mid);
    ReplayAppend(s, pre, [LoadFinished(ok, content)]);
    ProgressOnlyPrints(s, pre);
    var s1 := Replay(s, pre);
    assert Replay(s1, [LoadFinished(ok, content)]) == SaveResultSpec(s1, ok, content);
    ProgressOnlyPrints(SaveResultSpec(s1, ok, content), mid);
  }

  /** A capture with no size override and no pause, on a page whose content
      is 800 by 600, loads the page, paints it at 800 by 600, saves it to the
      requested file and signals `finished`. */
  lemma CaptureAtContentSize(url: Url, zoom: Int32, scale: Int32, fileName: string)
    ensures var s := LoadSpec(Initial, url, zoom, scale, fileName, 0, 0, 0);
      Replay(s, [LoadFinished(true, Size(800, 600))]).effects
        == [LoadPage(url), Render(Size(800, 600)), Save(fileName), Finished]
  {
    var s := LoadSpec(Initial, url, zoom, scale, fileName, 0, 0, 0);
    assert Replay(s, [LoadFinished(true, Size(800, 600))]) == SaveResultSpec(s, true, Size(800, 600));
  }

  /** The controller object.  `timerPending` says that the single-shot timer
      for `saveImage` is scheduled; `effects` is what it has done so far. */
  class WebCapture {
    var fileName: string
    var zoom: int
    var percent: int
    var scale: int
    var height: int
    var width: int
    var pause: int
    var ok: bool
    var timerPending: bool
    var effects: seq<Effect>

    ghost function State(): Session
      reads this
    {
      Session(fileName, zoom, scale, width, height, pause, percent, ok, timerPending, effects)
    }

    constructor ()
      ensures State() == Initial
    {
      fileName, zoom, percent, scale, height, width, pause := "", 100, 0, 0, 0, 0, 0;
      ok, timerPending, effects := false, false, [];
    }

    method Load(url: Url, zoom: Int32, scale: Int32, fileName: string, width: Int32, height: Int32, pause: Int32)
      modifies this
      ensures State() == LoadSpec(old(State()), url, zoom, scale, fileName, width, height, pause)
      ensures !ok && percent == 0 && this.pause == PauseMillis(pause)
    {
      ok := false;
      this.zoom := zoom;
      this.scale := scale;
      percent := 0;
      this.height := height;
      this.width := width;
      this.pause := PauseMillis(pause);
      this.fileName := fileName;
      effects := effects + [LoadPage(url)];
    }

    method ShowProgress(p: int)
      modifies this
      ensures State() == ProgressSpec(old(State()), p)
      ensures percent >= old(percent)
    {
      if percent >= p {
        return;
      }
      ghost var start := percent;
      // `m_percent++ < percent`: `seen` is the value the test compares.
      var seen := percent;
      percent := percent + 1;
      while seen < p
        invariant start <= seen <= p && percent == seen + 1
        invariant State() == old(State()).(percent := percent, effects := effects)
        invariant effects == old(effects) + Hashes(seen - start)
        decreases p - seen
      {
        effects := effects + [Hash];
        assert Hashes(seen - start) + [Hash] == Hashes(seen + 1 - start);
        seen := percent;
        percent := percent + 1;
      }
    }

    method SaveImage(content: Size)
      modifies this
      ensures State() == SaveImageSpec(old(State()), content)
    {
      if !ok {
        effects := effects + [Finished];
        return;
      }
      var size := content;
      if height != 0 {
        size := size.(height := height);
      }
      if width != 0 {
        size := size.(width := width);
      }
      effects := effects + [Render(size)];
      effects := effects + [Save(fileName)];
      effects := effects + [Finished];
    }

    method SaveResult(ok: bool, content: Size)
      modifies this
      ensures State() == SaveResultSpec(old(State()), ok, content)
    {
      this.ok := ok;
      if pause == 0 {
        SaveImage(content);
      } else {
        timerPending := true;
      }
    }

    /** The scheduled timer fires; the event loop delivers it only when it
        was scheduled. */
    method TimerFires(content: Size)
      requires timerPending
      modifies this
      ensures State() == TimerSpec(old(State()), content)
    {
      timerPending := false;
      SaveImage(content);
    }
  }
}
