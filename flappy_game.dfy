/** The Flappy Bird clone's game object: the React state of `useGameLogic`
    and its pipe id counter, with `jump`, `resetGame` and `generatePipe`
    (`useGameLogic`) and one frame of the loop and the collision effect
    (`useGameLoop`) as methods. */
module Flappy {
  import opened Geometry
  import opened FlappyLogic

  /** The React state of the Flappy Bird clone. */
  datatype FlappyState = FlappyState(
    gameStarted: bool,
    gameOver: bool,
    score: int,
    birdY: real,
    birdVelocity: real,
    pipes: seq<Pipe>,
    showInstructions: bool)

  /** The state a fresh or reset game starts from. */
  function InitialFlappyState(): FlappyState
  {
    FlappyState(false, false, 0, 300.0, 0.0, [], true)
  }

  /** The pipes after one frame's scroll and, when the scrolled list calls
      for one, a pipe drawn with the given id: never more than one pipe
      added, and never an empty screen. */
  function Spawned(cfg: Config, pipes: seq<Pipe>, id: int, r1: real, r2: real): (r: seq<Pipe>)
    requires Unit(r1) && Unit(r2)
    ensures NeedsPipe(cfg, ScrollPipes(cfg, pipes)) ==> r == ScrollPipes(cfg, pipes) + [PipeFromDraws(cfg, id, r1, r2)]
    ensures !NeedsPipe(cfg, ScrollPipes(cfg, pipes)) ==> r == ScrollPipes(cfg, pipes)
    ensures 1 <= |r| <= |pipes| + 1
  {
    var scrolled := ScrollPipes(cfg, pipes);
    if NeedsPipe(cfg, scrolled) then scrolled + [PipeFromDraws(cfg, id, r1, r2)] else scrolled
  }

  /** How many pipes a frame draws after scrolling: one when the screen
      calls for a new pipe, none otherwise. */
  function Drawn(cfg: Config, pipes: seq<Pipe>): nat
  {
    if NeedsPipe(cfg, ScrollPipes(cfg, pipes)) then 1 else 0
  }

  /** The bird moved by its velocity and accelerated by gravity, and the
      given pipe list scored: the newly passed pipes marked and counted. */
  function Moved(cfg: Config, s: FlappyState, pipes: seq<Pipe>): (r: FlappyState)
    ensures r.gameStarted == s.gameStarted && r.gameOver == s.gameOver
    ensures r.showInstructions == s.showInstructions
    ensures r.birdY == s.birdY + s.birdVelocity && r.birdVelocity == s.birdVelocity + cfg.gravity
    ensures r.score >= s.score && |r.pipes| == |pipes|
  {
    s.(birdY := s.birdY + s.birdVelocity, birdVelocity := s.birdVelocity + cfg.gravity,
       pipes := MarkPassed(cfg, pipes), score := s.score + CountNewlyPassed(cfg, pipes))
  }

  /** One frame of a running game: the bird moves by its velocity and
      gravity accelerates it; the pipes are scrolled, topped up and marked,
      and the score rises by the pipes newly passed. */
  function Advanced(cfg: Config, s: FlappyState, id: int, r1: real, r2: real): (r: FlappyState)
    requires Unit(r1) && Unit(r2)
    ensures r.gameStarted == s.gameStarted && r.gameOver == s.gameOver
    ensures r.showInstructions == s.showInstructions
    ensures r.birdY == s.birdY + s.birdVelocity && r.birdVelocity == s.birdVelocity + cfg.gravity
    ensures r.score >= s.score && |r.pipes| <= |s.pipes| + 1
  {
    Moved(cfg, s, Spawned(cfg, s.pipes, id, r1, r2))
  }

  /** The frame's updates to the bird and the score over the given pipes,
      with the scoring pass run as the loop of the game loop. */
  method MoveAndScore(cfg: Config, s: FlappyState, pipes: seq<Pipe>) returns (next: FlappyState)
    ensures next == Moved(cfg, s, pipes)
  {
    var marked, newScore := ScorePipes(cfg, pipes, s.score);
    next := s.(birdY := s.birdY + s.birdVelocity, birdVelocity := s.birdVelocity + cfg.gravity,
               pipes := marked, score := newScore);
  }

  /** A frame's pipes stay well formed, with the counter moved past the
      pipe drawn, if any. */
  lemma SpawnedWellFormed(cfg: Config, pipes: seq<Pipe>, id: int, r1: real, r2: real)
    requires Unit(r1) && Unit(r2) && id >= 0 && PipesWellFormed(pipes, id)
    ensures PipesWellFormed(MarkPassed(cfg, Spawned(cfg, pipes, id, r1, r2)), id + Drawn(cfg, pipes))
  {
    var scrolled := ScrollPipes(cfg, pipes);
    ScrollPipesWellFormed(cfg, pipes, id);
    if NeedsPipe(cfg, scrolled) {
      AppendPipeWellFormed(scrolled, PipeFromDraws(cfg, id, r1, r2), id);
    }
    MarkPassedWellFormed(cfg, Spawned(cfg, pipes, id, r1, r2), id + Drawn(cfg, pipes));
  }

  /** Pipe ids are fresh, the score is not negative, a game is over only
      after it started, and before the start nothing has moved: no pipes,
      no score, and the instructions are showing. */
  ghost predicate Consistent(s: FlappyState, pipeId: int)
  {
    pipeId >= 0 && PipesWellFormed(s.pipes, pipeId) && s.score >= 0
    && (s.gameOver ==> s.gameStarted)
    && (s.showInstructions <==> !s.gameStarted)
    && (!s.gameStarted ==> s.pipes == [] && s.score == 0)
  }

  /** A frame of a running game keeps the state consistent, with the
      counter moved past the pipe drawn, if any. */
  lemma AdvancedConsistent(cfg: Config, s: FlappyState, id: int, r1: real, r2: real)
    requires Unit(r1) && Unit(r2) && Consistent(s, id) && s.gameStarted
    ensures Consistent(Advanced(cfg, s, id, r1, r2), id + Drawn(cfg, s.pipes))
  {
    SpawnedWellFormed(cfg, s.pipes, id, r1, r2);
  }

  class FlappyGame {
    const cfg: Config
    var state: FlappyState
    /** `pipeIdRef`: the id the next generated pipe gets. */
    var pipeId: int

    /** The state and the pipe id counter are consistent. */
    ghost predicate Valid()
      reads this
    {
      Consistent(state, pipeId)
    }

    /** The loop and the collision effect only act while this holds. */
    predicate Running()
      reads this
    {
      state.gameStarted && !state.gameOver
    }

    constructor (config: Config)
      ensures Valid() && cfg == config
      ensures state == InitialFlappyState() && pipeId == 0
    {
      cfg := config;
      state := InitialFlappyState();
      pipeId := 0;
    }

    /** `jump`: both of its tests read the flags as they were when it was
        called, so the first jump only starts the game and later jumps set
        the bird's velocity; after game over it does nothing. */
    method Jump()
      requires Valid()
      modifies this`state
      ensures Valid()
      ensures old(state.gameOver) ==> state == old(state)
      ensures !old(state.gameStarted) && !old(state.gameOver) ==>
        state == old(state).(gameStarted := true, showInstructions := false)
      ensures old(state.gameStarted) && !old(state.gameOver) ==>
        state == old(state).(birdVelocity := cfg.jumpStrength)
    {
      var started, over := state.gameStarted, state.gameOver;
      if !started && !over {
        state := state.(gameStarted := true, showInstructions := false);
      }
      if started && !over {
        state := state.(birdVelocity := cfg.jumpStrength);
      }
    }

    /** `resetGame`: the initial state and the pipe ids from 0 again. */
    method ResetGame()
      modifies this
      ensures Valid()
      ensures state == InitialFlappyState() && pipeId == 0
    {
      state := InitialFlappyState();
      pipeId := 0;
    }

    /** `generatePipe`: a pipe drawn with the counter's id, which moves on. */
    method GeneratePipe(r1: real, r2: real) returns (p: Pipe)
      requires Unit(r1) && Unit(r2) && pipeId >= 0
      modifies this`pipeId
      ensures p == PipeFromDraws(cfg, old(pipeId), r1, r2)
      ensures pipeId == old(pipeId) + 1
    {
      p := PipeFromDraws(cfg, pipeId, r1, r2);
      pipeId := pipeId + 1;
    }

    /** One frame of the game loop: nothing unless the game is running;
        otherwise the bird moves by its velocity and gravity accelerates it,
        the pipes scroll, at most one pipe is drawn, and each pipe that has
        newly passed the bird is marked and scores one point. */
    method Tick(r1: real, r2: real)
      requires Valid() && Unit(r1) && Unit(r2)
      modifies this
      ensures Valid()
      ensures !old(Running()) ==> unchanged(this)
      ensures old(Running()) ==>
        state == Advanced(cfg, old(state), old(pipeId), r1, r2)
        && pipeId == old(pipeId) + Drawn(cfg, old(state.pipes))
      ensures old(state.score) <= state.score
    {
      if !state.gameStarted || state.gameOver {
        return;
      }
      Advance(r1, r2);
    }

    /** The body of a frame of a running game: the pipes scrolled and
        topped up, then the bird and the score updated. */
    method Advance(r1: real, r2: real)
      requires Valid() && Running() && Unit(r1) && Unit(r2)
      modifies this
      ensures Valid()
      ensures state == Advanced(cfg, old(state), old(pipeId), r1, r2)
      ensures pipeId == old(pipeId) + Drawn(cfg, old(state.pipes))
    {
      var s, id := state, pipeId;
      var spawned := SpawnPipes(s.pipes, r1, r2);
      var next := MoveAndScore(cfg, s, spawned);
      AdvancedConsistent(cfg, s, id, r1, r2);
      state := next;
    }

    /** The frame's pipe list: the pipes scrolled, and a new one drawn when
        the last one has moved far enough in. */
    method SpawnPipes(pipes: seq<Pipe>, r1: real, r2: real) returns (r: seq<Pipe>)
      requires pipeId >= 0 && Unit(r1) && Unit(r2)
      modifies this`pipeId
      ensures r == Spawned(cfg, pipes, old(pipeId), r1, r2)
      ensures pipeId == old(pipeId) + Drawn(cfg, pipes)
    {
      r := ScrollPipes(cfg, pipes);
      if NeedsPipe(cfg, r) {
        var p := GeneratePipe(r1, r2);
        r := r + [p];
      }
    }

    /** The collision effect: in a running game, a collision ends it. */
    method CollisionEffect() returns (hit: bool)
      requires Valid()
      modifies this`state
      ensures Valid()
      ensures hit <==> old(Running()) && Collides(cfg, old(state.birdY), old(state.pipes))
      ensures hit ==> state == old(state).(gameOver := true)
      ensures !hit ==> state == old(state)
    {
      hit := false;
      if state.gameStarted && !state.gameOver {
        hit := CheckCollision(cfg, state.birdY, state.pipes);
        if hit {
          state := state.(gameOver := true);
        }
      }
    }
  }
}
