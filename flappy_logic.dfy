/** The Flappy Bird clone's pure parts (`useGameLogic`, the state updater of
    `useGameLoop`): the axis-aligned collision test, pipe generation from
    random draws, the per-frame pipe scroll, the new-pipe rule and the
    scoring of passed pipes. The tuning constants live in a file that is not
    part of this model, so they are the fields of a configuration value. */
module FlappyLogic {
  import opened Geometry
  import opened Lists

  /** `GAME_CONSTANTS` of the Flappy Bird clone. */
  datatype Config = Config(
    gravity: real,
    jumpStrength: real,
    pipeSpeed: real,
    pipeWidth: real,
    pipeGap: real,
    birdSize: real,
    gameWidth: real,
    gameHeight: real,
    groundHeight: real)

  /** A pipe pair: its left edge `x`, the bottom of its upper half `height`
      and the gap below it. A `gapSize` of 0 stands for a pipe without one,
      which JavaScript's `||` treats alike. */
  datatype Pipe = Pipe(id: int, x: real, height: real, passed: bool, gapSize: real)

  /** The gap `checkCollision` uses: the pipe's own, or PIPE_GAP when it has
      none. */
  function EffectiveGap(cfg: Config, p: Pipe): real
  {
    if p.gapSize != 0.0 then p.gapSize else cfg.pipeGap
  }

  /** The bird's fixed horizontal extent, centred on the screen. */
  function BirdLeft(cfg: Config): real { cfg.gameWidth / 2.0 - cfg.birdSize / 2.0 }
  function BirdRight(cfg: Config): real { cfg.gameWidth / 2.0 + cfg.birdSize / 2.0 }

  /** The bird's bottom edge is below the top of the ground. */
  predicate HitsGround(cfg: Config, birdY: real)
  {
    birdY + cfg.birdSize > cfg.gameHeight - cfg.groundHeight
  }

  /** The bird's top edge is above the screen. */
  predicate HitsCeiling(birdY: real)
  {
    birdY < 0.0
  }

  /** The bird and the pipe overlap strictly on the horizontal axis. */
  predicate Overlaps(cfg: Config, p: Pipe)
  {
    BirdRight(cfg) > p.x && BirdLeft(cfg) < p.x + cfg.pipeWidth
  }

  /** The bird, overlapping the pipe, pokes into its upper or lower half. */
  predicate HitsPipe(cfg: Config, birdY: real, p: Pipe)
  {
    Overlaps(cfg, p) && (birdY < p.height || birdY + cfg.birdSize > p.height + EffectiveGap(cfg, p))
  }

  /** What `checkCollision` reports: the ground, the ceiling, or some pipe. */
  predicate Collides(cfg: Config, birdY: real, pipes: seq<Pipe>)
  {
    HitsGround(cfg, birdY) || HitsCeiling(birdY)
    || exists k :: 0 <= k < |pipes| && HitsPipe(cfg, birdY, pipes[k])
  }

  /** `checkCollision`: the boundary tests, then a search through the pipes
      that returns at the first one the bird hits. */
  method CheckCollision(cfg: Config, birdY: real, pipes: seq<Pipe>) returns (hit: bool)
    ensures hit <==> Collides(cfg, birdY, pipes)
    ensures HitsGround(cfg, birdY) || HitsCeiling(birdY) ==> hit
    ensures !HitsGround(cfg, birdY) && !HitsCeiling(birdY) && (forall k :: 0 <= k < |pipes| ==> !Overlaps(cfg, pipes[k])) ==> !hit
  {
    if birdY + cfg.birdSize > cfg.gameHeight - cfg.groundHeight {
      return true;
    }
    if birdY < 0.0 {
      return true;
    }
    var birdLeft := cfg.gameWidth / 2.0 - cfg.birdSize / 2.0;
    var birdRight := cfg.gameWidth / 2.0 + cfg.birdSize / 2.0;
    var birdTop := birdY;
    var birdBottom := birdY + cfg.birdSize;
    var k := 0;
    while k < |pipes|
      invariant 0 <= k <= |pipes|
      invariant forall j :: 0 <= j < k ==> !HitsPipe(cfg, birdY, pipes[j])
    {
      var pipe := pipes[k];
      if birdRight > pipe.x && birdLeft < pipe.x + cfg.pipeWidth {
        var topPipeBottom := pipe.height;
        var bottomPipeTop := pipe.height + (if pipe.gapSize != 0.0 then pipe.gapSize else cfg.pipeGap);
        if birdTop < topPipeBottom || birdBottom > bottomPipeTop {
          return true;
        }
      }
      k := k + 1;
    }
    return false;
  }

  /** A bird inside the playfield and inside the gap of every pipe it
      overlaps touches nothing. */
  lemma SafeInsideGaps(cfg: Config, birdY: real, pipes: seq<Pipe>)
    requires 0.0 <= birdY && birdY + cfg.birdSize <= cfg.gameHeight - cfg.groundHeight
    requires forall k :: 0 <= k < |pipes| && Overlaps(cfg, pipes[k]) ==>
      pipes[k].height <= birdY && birdY + cfg.birdSize <= pipes[k].height + EffectiveGap(cfg, pipes[k])
    ensures !Collides(cfg, birdY, pipes)
  {
    forall k | 0 <= k < |pipes|
      ensures !HitsPipe(cfg, birdY, pipes[k])
    {
    }
  }

  const GAP_SIZE_MIN: real := 120.0
  const GAP_SIZE_MAX: real := 180.0
  const GAP_TOP_MIN: real := 80.0

  /** The lowest gap top `generatePipe` may draw, exclusive: 80 pixels above
      the largest gap resting on the ground. */
  function GapTopMax(cfg: Config): real
  {
    cfg.gameHeight - cfg.groundHeight - GAP_SIZE_MAX - 80.0
  }

  /** `r * s` for a draw r: within [0, s) when s is positive. */
  function Fraction(r: real, s: real): (x: real)
    requires Unit(r)
    ensures s > 0.0 ==> 0.0 <= x < s
  {
    if s > 0.0 then
      MulNonNegative(r, s);
      MulPositive(1.0 - r, s);
      assert (1.0 - r) * s == s - r * s;
      r * s
    else r * s
  }

  /** `Math.random() * (hi - lo) + lo` for the draw r: within [lo, hi)
      whenever that range is non-empty. */
  function DrawIn(r: real, lo: real, hi: real): (x: real)
    requires Unit(r)
    ensures lo < hi ==> lo <= x < hi
  {
    Fraction(r, hi - lo) + lo
  }

  /** `generatePipe` for the draws r1 (gap size) and r2 (gap top): a pipe at
      the right edge of the screen, not yet passed, with a gap between 120
      and 180 pixels whose top lies between GAP_TOP_MIN and GapTopMax. */
  function PipeFromDraws(cfg: Config, id: int, r1: real, r2: real): (p: Pipe)
    requires Unit(r1) && Unit(r2)
    ensures p.id == id && p.x == cfg.gameWidth && !p.passed
    ensures GAP_SIZE_MIN <= p.gapSize < GAP_SIZE_MAX && EffectiveGap(cfg, p) == p.gapSize
    ensures GapTopMax(cfg) > GAP_TOP_MIN ==> GAP_TOP_MIN <= p.height < GapTopMax(cfg)
  {
    Pipe(id, cfg.gameWidth, DrawIn(r2, GAP_TOP_MIN, GapTopMax(cfg)), false, DrawIn(r1, GAP_SIZE_MIN, GAP_SIZE_MAX))
  }

  function PipeId(p: Pipe): int { p.id }

  /** The pipe list's invariant: ids strictly increase along the list and
      all lie below the id counter. */
  predicate PipesWellFormed(pipes: seq<Pipe>, nextId: int)
  {
    (forall k :: 0 <= k < |pipes| ==> 0 <= pipes[k].id < nextId)
    && Increasing(pipes, PipeId)
  }

  /** A pipe drawn from the counter can be appended. */
  lemma AppendPipeWellFormed(pipes: seq<Pipe>, p: Pipe, nextId: int)
    requires PipesWellFormed(pipes, nextId) && nextId >= 0 && p.id == nextId
    ensures PipesWellFormed(pipes + [p], nextId + 1)
  {
    AppendIncreasing(pipes, p, PipeId);
  }

  /** One frame of a pipe: PIPE_SPEED further left. */
  function Shift(cfg: Config, p: Pipe): Pipe
  {
    p.(x := p.x - cfg.pipeSpeed)
  }

  /** The pipe is still (partly) on screen. */
  predicate OnScreen(cfg: Config, p: Pipe)
  {
    p.x + cfg.pipeWidth > 0.0
  }

  /** The pipe scroll of the game loop: every pipe shifted, the ones that
      have left the screen dropped. */
  function ScrollPipes(cfg: Config, pipes: seq<Pipe>): seq<Pipe>
  {
    MapFilter(pipes, p => Shift(cfg, p), p => OnScreen(cfg, p))
  }

  /** A pipe survives the scroll exactly when it is still on screen after
      moving PIPE_SPEED left; survivors keep everything else, and nothing is
      added. */
  lemma ScrollPipesMember(cfg: Config, pipes: seq<Pipe>, q: Pipe)
    ensures q in ScrollPipes(cfg, pipes) <==>
      exists k :: 0 <= k < |pipes| && q == pipes[k].(x := pipes[k].x - cfg.pipeSpeed)
        && pipes[k].x - cfg.pipeSpeed + cfg.pipeWidth > 0.0
    ensures |ScrollPipes(cfg, pipes)| <= |pipes|
  {
    MapFilterMember(pipes, p => Shift(cfg, p), p => OnScreen(cfg, p), q);
  }

  /** Scrolling keeps the pipe list well formed. */
  lemma ScrollPipesWellFormed(cfg: Config, pipes: seq<Pipe>, nextId: int)
    requires PipesWellFormed(pipes, nextId)
    ensures PipesWellFormed(ScrollPipes(cfg, pipes), nextId)
  {
    var r := ScrollPipes(cfg, pipes);
    MapFilterIncreasing(pipes, p => Shift(cfg, p), p => OnScreen(cfg, p), PipeId);
    forall k | 0 <= k < |r|
      ensures 0 <= r[k].id < nextId
    {
      assert r[k] in r;
    }
  }

  /** The game loop appends a pipe when none is left or the newest one has
      moved more than 300 pixels in from the right edge. */
  predicate NeedsPipe(cfg: Config, pipes: seq<Pipe>)
  {
    |pipes| == 0 || pipes[|pipes| - 1].x < cfg.gameWidth - 300.0
  }

  /** The pipe has moved wholly behind the bird and has not been counted. */
  predicate Scores(cfg: Config, p: Pipe)
  {
    !p.passed && p.x + cfg.pipeWidth < BirdLeft(cfg)
  }

  /** The pipe with its `passed` flag set if it scores now. */
  function Mark(cfg: Config, p: Pipe): Pipe
  {
    if Scores(cfg, p) then p.(passed := true) else p
  }

  /** The pipes after the scoring `forEach`. */
  function MarkPassed(cfg: Config, pipes: seq<Pipe>): (r: seq<Pipe>)
    ensures |r| == |pipes|
    ensures forall k :: 0 <= k < |r| ==> r[k] == Mark(cfg, pipes[k])
  {
    seq(|pipes|, k requires 0 <= k < |pipes| => Mark(cfg, pipes[k]))
  }

  /** Scoring keeps the pipe list well formed. */
  lemma MarkPassedWellFormed(cfg: Config, pipes: seq<Pipe>, nextId: int)
    requires PipesWellFormed(pipes, nextId)
    ensures PipesWellFormed(MarkPassed(cfg, pipes), nextId)
  {
    var r := MarkPassed(cfg, pipes);
    assert forall k :: 0 <= k < |r| ==> r[k].id == pipes[k].id;
  }

  /** The points the scoring `forEach` adds: one per scoring pipe. */
  function CountNewlyPassed(cfg: Config, pipes: seq<Pipe>): nat
  {
    if |pipes| == 0 then 0
    else CountNewlyPassed(cfg, pipes[..|pipes| - 1]) + (if Scores(cfg, pipes[|pipes| - 1]) then 1 else 0)
  }

  /** The number of pipes whose `passed` flag is set. */
  function PassedCount(pipes: seq<Pipe>): nat
  {
    if |pipes| == 0 then 0
    else PassedCount(pipes[..|pipes| - 1]) + (if pipes[|pipes| - 1].passed then 1 else 0)
  }

  /** The scoring `forEach`: walks the pipes in order, setting `passed` on
      each scoring pipe in place and adding one point for it. */
  method ScorePipes(cfg: Config, pipes: seq<Pipe>, score: int) returns (marked: seq<Pipe>, newScore: int)
    ensures marked == MarkPassed(cfg, pipes)
    ensures newScore == score + CountNewlyPassed(cfg, pipes)
  {
    marked := pipes;
    newScore := score;
    var k := 0;
    while k < |marked|
      invariant 0 <= k <= |marked| == |pipes|
      invariant forall j :: 0 <= j < k ==> marked[j] == Mark(cfg, pipes[j])
      invariant forall j :: k <= j < |marked| ==> marked[j] == pipes[j]
      invariant newScore == score + CountNewlyPassed(cfg, pipes[..k])
    {
      assert pipes[..k + 1][..k] == pipes[..k];
      var pipe := marked[k];
      if !pipe.passed && pipe.x + cfg.pipeWidth < cfg.gameWidth / 2.0 - cfg.birdSize / 2.0 {
        marked := marked[k := pipe.(passed := true)];
        newScore := newScore + 1;
      }
      k := k + 1;
    }
    assert pipes[..k] == pipes;
  }

  /** The points scored are exactly the `passed` flags switched on: the
      score rises by the number of pipes that newly passed behind the bird. */
  lemma {:induction false} ScoreIsFlagsSet(cfg: Config, pipes: seq<Pipe>)
    ensures PassedCount(MarkPassed(cfg, pipes)) == PassedCount(pipes) + CountNewlyPassed(cfg, pipes)
  {
    if |pipes| > 0 {
      var init := pipes[..|pipes| - 1];
      ScoreIsFlagsSet(cfg, init);
      assert MarkPassed(cfg, pipes)[..|pipes| - 1] == MarkPassed(cfg, init);
    }
  }

  /** Scoring twice scores nothing the second time and changes nothing:
      every pipe is counted at most once. */
  lemma {:induction false} MarkPassedIdempotent(cfg: Config, pipes: seq<Pipe>)
    ensures MarkPassed(cfg, MarkPassed(cfg, pipes)) == MarkPassed(cfg, pipes)
    ensures CountNewlyPassed(cfg, MarkPassed(cfg, pipes)) == 0
  {
    if |pipes| > 0 {
      var init := pipes[..|pipes| - 1];
      MarkPassedIdempotent(cfg, init);
      assert MarkPassed(cfg, pipes)[..|pipes| - 1] == MarkPassed(cfg, init);
    }
  }

  /** A pipe that was behind the bird when the frame scored keeps its
      `passed` flag through the next scroll, so the next frame does not
      count it again. */
  lemma ScoredStaysPassed(cfg: Config, pipes: seq<Pipe>, q: Pipe)
    requires q in ScrollPipes(cfg, MarkPassed(cfg, pipes))
    requires q.x + cfg.pipeSpeed + cfg.pipeWidth < BirdLeft(cfg)
    ensures q.passed && !Scores(cfg, q)
  {
    var m := MarkPassed(cfg, pipes);
    ScrollPipesMember(cfg, m, q);
    var k :| 0 <= k < |m| && q == m[k].(x := m[k].x - cfg.pipeSpeed) && m[k].x - cfg.pipeSpeed + cfg.pipeWidth > 0.0;
    assert m[k] == Mark(cfg, pipes[k]);
  }

  /** With pipes moving left, a pipe behind the bird stays behind it. */
  lemma BehindStaysBehind(cfg: Config, p: Pipe)
    requires cfg.pipeSpeed >= 0.0 && p.x + cfg.pipeWidth < BirdLeft(cfg)
    ensures Shift(cfg, p).x + cfg.pipeWidth < BirdLeft(cfg)
  {
  }
}
