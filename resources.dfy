/**
 * The game's frame-timing resource: it remembers when the last frame was
 * rendered, how long the frame before it took, and a frames-per-second
 * figure refreshed once a second.
 *
 * The clock is not modelled: every reading of it is passed in as `now`, a
 * number of nanoseconds on a monotonic clock.
 */
module Resources {

  /** One second, in clock ticks (nanoseconds). */
  const SECOND: nat := 1_000_000_000

  /** The five timing fields, as a value. */
  datatype Clock = Clock(lastRender: nat, sinceLastRender: nat, fpsNext: nat, fpsCounter: nat, fps: nat)

  /**
   * Time elapsed from `earlier` to `later`. Subtracting a later instant from
   * an earlier one saturates at zero instead of going negative.
   */
  function Elapsed(later: nat, earlier: nat): (d: nat)
    ensures later >= earlier ==> earlier + d == later
    ensures later < earlier ==> d == 0
  {
    if later >= earlier then later - earlier else 0
  }

  /** The timing state right after start-up at instant `now`. */
  function Started(now: nat): (c: Clock)
    ensures c.lastRender == c.fpsNext == now
    ensures c.sinceLastRender == 0 && c.fpsCounter == 0 && c.fps == 0
  {
    Clock(now, 0, now, 0, 0)
  }

  /** What one frame rendered at `now` does to the timing state. */
  function Tick(c: Clock, now: nat): (d: Clock)
    ensures d.lastRender == now
    ensures d.fpsCounter == 0 || d.fpsCounter == c.fpsCounter + 1
    ensures d.fps == c.fps || d.fps == c.fpsCounter
    ensures d.fpsNext == c.fpsNext || d.fpsNext == now + SECOND
  {
    if now >= c.fpsNext then
      Clock(now, Elapsed(now, c.lastRender), now + SECOND, 0, c.fpsCounter)
    else
      Clock(now, Elapsed(now, c.lastRender), c.fpsNext, c.fpsCounter + 1, c.fps)
  }

  /** The timing state after frames rendered at each instant of `nows`, in order. */
  function Run(c: Clock, nows: seq<nat>): Clock
    decreases |nows|
  {
    if |nows| == 0 then c else Run(Tick(c, nows[0]), nows[1..])
  }

  /**
   * The next refresh of the fps figure is never more than one second after
   * the last frame.
   */
  predicate Window(c: Clock)
  {
    c.fpsNext <= c.lastRender + SECOND
  }

  /** A frame always records its own instant and the time since the previous one. */
  lemma TickRecordsFrame(c: Clock, now: nat)
    requires now >= c.lastRender
    ensures Tick(c, now).lastRender == now
    ensures c.lastRender + Tick(c, now).sinceLastRender == now
  {
  }

  /**
   * When the refresh instant has come, the figure takes the frames counted so
   * far, the counter restarts and the next refresh is one second away; before
   * that, only the counter moves, by one.
   */
  lemma TickBranches(c: Clock, now: nat)
    ensures now >= c.fpsNext ==>
      var d := Tick(c, now);
      d.fps == c.fpsCounter && d.fpsCounter == 0 && d.fpsNext == now + SECOND
    ensures now < c.fpsNext ==>
      var d := Tick(c, now);
      d.fps == c.fps && d.fpsCounter == c.fpsCounter + 1 && d.fpsNext == c.fpsNext
  {
  }

  /** The start-up state satisfies `Window`, and a frame on a forward-moving clock keeps it. */
  lemma WindowKept(c: Clock, now: nat)
    ensures Window(Started(now))
    ensures Window(c) && now >= c.lastRender ==> Window(Tick(c, now))
  {
  }

  /** Running two batches of frames is running them one after the other. */
  lemma {:induction false} RunAppend(c: Clock, a: seq<nat>, b: seq<nat>)
    ensures Run(c, a + b) == Run(Run(c, a), b)
    decreases |a|
  {
    if |a| == 0 {
      assert a + b == b;
    } else {
      assert (a + b)[1..] == a[1..] + b;
      RunAppend(Tick(c, a[0]), a[1..], b);
    }
  }

  /**
   * Frames rendered before the refresh instant are only counted: the counter
   * grows by their number and the figure and refresh instant stay put.
   */
  lemma {:induction false} CountsFrames(c: Clock, nows: seq<nat>)
    requires forall i :: 0 <= i < |nows| ==> nows[i] < c.fpsNext
    ensures Run(c, nows).fpsCounter == c.fpsCounter + |nows|
    ensures Run(c, nows).fps == c.fps
    ensures Run(c, nows).fpsNext == c.fpsNext
    decreases |nows|
  {
    if |nows| > 0 {
      CountsFrames(Tick(c, nows[0]), nows[1..]);
    }
  }

  /**
   * The figure reports the frames rendered between two refreshes: after a
   * refresh at `start`, the frames `between` inside the following second and
   * a refresh at `stop`, the figure is the number of frames in between. The
   * frame that triggers a refresh is counted in neither second.
   */
  lemma ReportsFrames(c: Clock, start: nat, between: seq<nat>, stop: nat)
    requires start >= c.fpsNext
    requires forall i :: 0 <= i < |between| ==> between[i] < start + SECOND
    requires stop >= start + SECOND
    ensures Run(c, [start] + between + [stop]).fps == |between|
    ensures Run(c, [start] + between + [stop]).fpsCounter == 0
    ensures Run(c, [start] + between + [stop]).fpsNext == stop + SECOND
  {
    var d := Tick(c, start);
    RunAppend(c, [start] + between, [stop]);
    RunAppend(c, [start], between);
    assert Run(c, [start]) == d;
    CountsFrames(d, between);
    assert Run(Run(c, [start] + between), [stop]) == Tick(Run(d, between), stop);
  }

  /** The timing resource, updated each time a frame is rendered. */
  class Time {
    var lastRender: nat
    var sinceLastRender: nat
    var fpsNext: nat
    var fpsCounter: nat
    var fps: nat

    /** The five fields as a value. */
    function State(): Clock
      reads this
    {
      Clock(lastRender, sinceLastRender, fpsNext, fpsCounter, fps)
    }

    /** Start-up at instant `now`: nothing rendered, nothing counted. */
    constructor(now: nat)
      ensures State() == Started(now)
      ensures Window(State())
    {
      lastRender := now;
      sinceLastRender := 0;
      fpsNext := now;
      fpsCounter := 0;
      fps := 0;
    }

    /** The last frames-per-second figure. */
    method Fps() returns (f: nat)
      ensures f == State().fps
    {
      f := fps;
    }

    /** Records a frame rendered at `now`. */
    method Update(now: nat)
      modifies this
      ensures State() == Tick(old(State()), now)
      ensures old(Window(State())) && now >= old(lastRender) ==> Window(State())
    {
      sinceLastRender := Elapsed(now, lastRender);
      lastRender := now;

      if now >= fpsNext {
        fpsNext := now + SECOND;
        fps := fpsCounter;
        fpsCounter := 0;
      } else {
        fpsCounter := fpsCounter + 1;
      }
    }
  }
}
