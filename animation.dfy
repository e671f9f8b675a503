/**
 * The one-shot fade driver (`Fade` in canvasGrid.ts) as a lifecycle: a
 * first draw at full opacity on creation, one fading draw per frame before
 * the end time, then a single finishing draw after which the fade is dead.
 * The host's frame scheduler is replaced by calls of `Frame(now)` with an
 * abstract clock; opacity values are not modelled, only which kind of draw
 * happens.
 */
module Animation {

  /** The draw callback's calls: `draw(1, false)`, `draw(v, false)` and `draw(0, true)`. */
  datatype Draw = FullOpacity | Fading | Finished

  datatype FadeState = FadeState(end: int, dead: bool)

  datatype Ticked = Ticked(s: FadeState, draws: seq<Draw>)

  /** One scheduled `frame()` at clock `now`. */
  function FrameStep(s: FadeState, now: int): (t: Ticked)
    ensures t.s.end == s.end
    ensures s.dead ==> t == Ticked(s, [])
    ensures !s.dead && now < s.end ==> t == Ticked(s, [Fading])
    ensures !s.dead && now >= s.end ==> t.s.dead && t.draws == [Finished]
  {
    if s.dead then Ticked(s, [])
    else if now < s.end then Ticked(s, [Fading])
    else Ticked(s.(dead := true), [Finished])
  }

  /** Frames at the clocks `clocks`, in order. */
  function FrameRun(s: FadeState, clocks: seq<int>): Ticked
    decreases |clocks|
  {
    if clocks == [] then Ticked(s, [])
    else
      var t1 := FrameStep(s, clocks[0]);
      var t2 := FrameRun(t1.s, clocks[1..]);
      Ticked(t2.s, t1.draws + t2.draws)
  }

  /** A dead fade, killed or finished, never draws again. */
  lemma {:induction false} DeadFadeNeverDraws(s: FadeState, clocks: seq<int>)
    requires s.dead
    ensures FrameRun(s, clocks) == Ticked(s, [])
    decreases |clocks|
  {
    if clocks != [] {
      DeadFadeNeverDraws(s, clocks[1..]);
    }
  }

  /** Before the end time every frame is a fading draw and the fade stays alive. */
  lemma {:induction false} FadesUntilEnd(s: FadeState, clocks: seq<int>)
    requires !s.dead
    requires forall i :: 0 <= i < |clocks| ==> clocks[i] < s.end
    ensures FrameRun(s, clocks) == Ticked(s, seq(|clocks|, _ => Fading))
    decreases |clocks|
  {
    if clocks != [] {
      FadesUntilEnd(s, clocks[1..]);
      assert [Fading] + seq(|clocks| - 1, _ => Fading) == seq(|clocks|, _ => Fading);
    }
  }

  /**
   * The finishing draw happens at most once, is the last draw, and leaves
   * the fade dead; a fade that reaches a frame at or after its end time
   * does finish.
   */
  lemma {:induction false} FinishesOnceAndLast(s: FadeState, clocks: seq<int>)
    ensures var t := FrameRun(s, clocks);
      (Finished in t.draws ==> !s.dead && t.s.dead && t.draws[|t.draws| - 1] == Finished &&
                               Finished !in t.draws[..|t.draws| - 1]) &&
      (!s.dead && (exists i :: 0 <= i < |clocks| && clocks[i] >= s.end) ==> Finished in t.draws) &&
      (s.dead ==> t.s.dead)
    decreases |clocks|
  {
    if clocks != [] {
      var t1 := FrameStep(s, clocks[0]);
      var t2 := FrameRun(t1.s, clocks[1..]);
      FinishesOnceAndLast(t1.s, clocks[1..]);
      if t1.s.dead {
        DeadFadeNeverDraws(t1.s, clocks[1..]);
      }
      if !s.dead && (exists i :: 0 <= i < |clocks| && clocks[i] >= s.end) && clocks[0] < s.end {
        var i :| 0 <= i < |clocks| && clocks[i] >= s.end;
        assert clocks[1..][i - 1] == clocks[i];
      }
      var all := t1.draws + t2.draws;
      if Finished in t2.draws {
        assert all[|all| - 1] == t2.draws[|t2.draws| - 1];
        assert all[..|all| - 1] == t1.draws + t2.draws[..|t2.draws| - 1];
      } else if t1.draws == [Finished] {
        assert all == [Finished];
      }
    }
  }

  class Fade {
    var start: int
    var end: int
    var dead: bool
    ghost var draws: seq<Draw>

    /** Created at clock `now` to start after `delay` and last `duration`; draws at full opacity at once. */
    constructor (now: int, delay: int, duration: int)
      ensures start == now + delay && end == start + duration
      ensures !dead && draws == [FullOpacity]
    {
      start := now + delay;
      end := now + delay + duration;
      dead := false;
      draws := [FullOpacity];
    }

    function View(): FadeState
      reads this
    {
      FadeState(end, dead)
    }

    method Frame(now: int)
      modifies this`dead, this`draws
      ensures View() == FrameStep(old(View()), now).s
      ensures draws == old(draws) + FrameStep(old(View()), now).draws
    {
      if dead {
        return;
      }
      if now < end {
        draws := draws + [Fading];
      } else {
        Kill();
        draws := draws + [Finished];
      }
    }

    method Kill()
      modifies this`dead
      ensures dead
    {
      dead := true;
    }
  }
}
