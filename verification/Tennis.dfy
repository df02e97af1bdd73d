/**
 The tennis example: two paddles, a ball that speeds up on every paddle hit, and players that
 may come and go. Coordinates are real numbers; square root, sine and cosine are taken for
 what they are by their laws.
 */
module Tennis {
  import opened Basics

  const TIME_SCALE_FACTOR: real := 0.02
  const BOARD_HEIGHT: real := 10.0
  const BOARD_WIDTH: real := 20.0
  const PADDLE_SPEED: real := 0.4 * TIME_SCALE_FACTOR
  const PADDLE_SIZE: real := 1.0
  const BALL_SPEEDUP_MULTIPLIER: real := 1.05

  // `norm` is the length of a vector; `cos` and `sin` take the bounce angle as a fraction of
  // the largest one, a quarter of pi.
  datatype Physics = Physics(norm: (real, real) -> real, cos: real -> real, sin: real -> real)

  ghost predicate Lawful(ph: Physics) {
    && (forall a, b :: ph.norm(a, b) >= 0.0 && Square(ph.norm(a, b)) == Square(a) + Square(b))
    && (forall u | -1.0 <= u <= 1.0 :: ph.cos(u) > 0.0 && Square(ph.cos(u)) + Square(ph.sin(u)) == 1.0)
    && ph.cos(0.0) == 1.0 && ph.sin(0.0) == 0.0
    && (forall u | -1.0 <= u <= 1.0 :: (ph.sin(u) > 0.0 <==> u > 0.0) && (ph.sin(u) < 0.0 <==> u < 0.0))
  }

  function Square(x: real): real {
    x * x
  }

  function Abs(x: real): real {
    if x < 0.0 then -x else x
  }

  function Sign(x: real): real {
    if x < 0.0 then -1.0 else 1.0
  }

  // ---------- paddles ----------

  datatype Hand = Up | Down | Stop | Disconnected

  // None when the player is gone.
  function MovePaddle(pos: real, hand: Hand): Option<real> {
    if hand == Disconnected then None
    else
      var delta := if hand == Up then -PADDLE_SPEED else if hand == Down then PADDLE_SPEED else 0.0;
      var low := if pos + delta < PADDLE_SIZE / 2.0 then PADDLE_SIZE / 2.0 else pos + delta;
      Some(if low > BOARD_HEIGHT - PADDLE_SIZE / 2.0 then BOARD_HEIGHT - PADDLE_SIZE / 2.0 else low)
  }

  predicate OnRail(y: real) {
    PADDLE_SIZE / 2.0 <= y <= BOARD_HEIGHT - PADDLE_SIZE / 2.0
  }

  // ---------- the ball ----------

  // The two components of the velocity after a hit at the fraction `u` of the largest angle.
  function Across(ph: Physics, dx: real, dy: real, u: real): real {
    -Sign(dx) * (ph.norm(dx, dy) * BALL_SPEEDUP_MULTIPLIER) * ph.cos(u)
  }

  function Along(ph: Physics, dx: real, dy: real, u: real): real {
    ph.norm(dx, dy) * BALL_SPEEDUP_MULTIPLIER * ph.sin(u)
  }

  // The velocity after a paddle hit; None for the panic "bouncing in the same direction".
  function Bounce(ph: Physics, dx: real, dy: real, ballY: real, paddleY: real): Option<(real, real)> {
    var u := (ballY - paddleY) / (PADDLE_SIZE / 2.0);
    var newDx := Across(ph, dx, dy, u);
    if dx * newDx >= 0.0 then None else Some((newDx, Along(ph, dx, dy, u)))
  }

  datatype Ball = Ball(x: real, y: real, dx: real, dy: real)

  // What becomes of the ball in one step; `hits` counts the paddle hits.
  datatype Flight = InPlay(ball: Ball, hits: nat) | Missed1 | Missed2 | Panic

  predicate Misses(ballY: real, paddleY: real) {
    ballY > paddleY + PADDLE_SIZE / 2.0 || ballY < paddleY - PADDLE_SIZE / 2.0
  }

  // Reflection off the top and bottom of the board.
  function Reflect(b: Ball): Ball {
    var y := b.y + b.dy;
    if y <= 0.0 then Ball(b.x + b.dx, Abs(y), b.dx, -b.dy)
    else if y > BOARD_HEIGHT then Ball(b.x + b.dx, 2.0 * BOARD_HEIGHT - y, b.dx, -b.dy)
    else Ball(b.x + b.dx, y, b.dx, b.dy)
  }

  // The left edge: `r` is the ball as reflected, `y` where its way back crosses the edge.
  function LeftEdge(ph: Physics, r: Ball, y: real, y1: real): (f: Flight)
    requires r.dx != 0.0
    ensures f.InPlay? ==> f.ball.dx != 0.0
  {
    if r.x > 0.0 then InPlay(r, 0)
    else if Misses(y, y1) then Missed1
    else
      var v := Bounce(ph, r.dx, r.dy, y, y1);
      if v.None? || v.value.0 < 0.0 then Panic
      else InPlay(Ball(Abs(r.x), y, v.value.0, v.value.1), 1)
  }

  function RightEdge(ph: Physics, r: Ball, hits: nat, y: real, y2: real): (f: Flight)
    requires r.dx != 0.0
    ensures f.InPlay? ==> f.ball.dx != 0.0
  {
    if r.x <= BOARD_WIDTH then InPlay(r, hits)
    else if Misses(y, y2) then Missed2
    else
      var v := Bounce(ph, r.dx, r.dy, y, y2);
      if v.None? || v.value.0 > 0.0 then Panic
      else InPlay(Ball(2.0 * BOARD_WIDTH - r.x, y, v.value.0, v.value.1), hits + 1)
  }

  // Where the way of the ball `b`, with the velocity of `r`, crosses the line x = `edge`.
  function Crossing(b: Ball, r: Ball, edge: real): real
    requires r.dx != 0.0
  {
    b.y + (edge - b.x) * r.dy / r.dx
  }

  function Edges(ph: Physics, r: Ball, yl: real, y1: real, b: Ball, y2: real): (f: Flight)
    requires r.dx != 0.0
    ensures f.InPlay? ==> f.ball.dx != 0.0
  {
    var left := LeftEdge(ph, r, yl, y1);
    if left.InPlay? then RightEdge(ph, left.ball, left.hits, Crossing(b, left.ball, BOARD_WIDTH), y2) else left
  }

  function Fly(ph: Physics, b: Ball, y1: real, y2: real): (f: Flight)
    requires b.dx != 0.0
    ensures f.InPlay? ==> f.ball.dx != 0.0
  {
    Edges(ph, Reflect(b), Crossing(b, Reflect(b), 0.0), y1, b, y2)
  }

  // ---------- laws of flight ----------

  function Energy(b: Ball): real {
    Square(b.dx) + Square(b.dy)
  }

  // The square of the speed after `hits` paddle hits; each multiplies the speed by 1.05.
  function Boost(energy: real, hits: nat): real {
    if hits == 0 then energy else 1.1025 * Boost(energy, hits - 1)
  }

  lemma MulPositive(a: real, b: real)
    requires a > 0.0 && b > 0.0
    ensures a * b > 0.0
  {
  }

  lemma ProductIsPositive(x: real)
    requires x != 0.0
    ensures x * x > 0.0
  {
  }

  lemma SquareIsPositive(x: real)
    requires x != 0.0
    ensures Square(x) > 0.0
  {
    calc {
      Square(x);
      ==
      x * x;
      >  { ProductIsPositive(x); }
      0.0;
    }
  }

  lemma PositiveBySquare(x: real)
    requires x >= 0.0 && Square(x) > 0.0
    ensures x > 0.0
  {
  }

  lemma SpeedIsPositive(ph: Physics, dx: real, dy: real)
    requires Lawful(ph) && dx != 0.0
    ensures ph.norm(dx, dy) > 0.0
  {
    SquareIsPositive(dx);
    if dy != 0.0 {
      SquareIsPositive(dy);
    }
    assert Square(ph.norm(dx, dy)) == Square(dx) + Square(dy);
    PositiveBySquare(ph.norm(dx, dy));
  }

  lemma ScaledUnitVector(speed: real, c: real, s: real)
    requires Square(c) + Square(s) == 1.0
    ensures Square(speed * c) + Square(speed * s) == Square(speed)
  {
  }

  // A hit turns the ball around and speeds it up by the fixed factor; off the middle of the paddle the
  // ball goes where it was hit.
  lemma BounceLaw(ph: Physics, dx: real, dy: real, ballY: real, paddleY: real)
    requires Lawful(ph) && dx != 0.0 && !Misses(ballY, paddleY)
    ensures var v := Bounce(ph, dx, dy, ballY, paddleY);
      && v.Some?
      && (dx < 0.0 <==> v.value.0 > 0.0) && v.value.0 != 0.0
      && Square(v.value.0) + Square(v.value.1) == 1.1025 * (Square(dx) + Square(dy))
      && (v.value.1 > 0.0 <==> ballY > paddleY) && (v.value.1 < 0.0 <==> ballY < paddleY)
  {
    var u := (ballY - paddleY) / (PADDLE_SIZE / 2.0);
    var norm := ph.norm(dx, dy);
    var speed := norm * BALL_SPEEDUP_MULTIPLIER;
    assert -1.0 <= u <= 1.0;
    SpeedIsPositive(ph, dx, dy);
    MulPositive(speed, ph.cos(u));
    var across := speed * ph.cos(u);
    assert -Sign(dx) * speed * ph.cos(u) == -Sign(dx) * across;
    OppositeSigns(dx, across);
    ScaledUnitVector(speed, ph.cos(u), ph.sin(u));
    ScaledSign(speed, ph.sin(u));
    assert Along(ph, dx, dy, u) == speed * ph.sin(u);
    assert Square(-Sign(dx) * across) == Square(across);
    assert Square(speed) == 1.1025 * Square(norm);
  }

  lemma ScaledSign(a: real, b: real)
    requires a > 0.0
    ensures (a * b > 0.0 <==> b > 0.0) && (a * b < 0.0 <==> b < 0.0)
  {
  }

  lemma OppositeSigns(dx: real, across: real)
    requires dx != 0.0 && across > 0.0
    ensures dx * (-Sign(dx) * across) < 0.0
  {
  }

  // A ball left of the board is on its way further left, and never one right of it.
  predicate Aimed(b: Ball) {
    b.dx != 0.0 && b.x <= BOARD_WIDTH && (b.x >= 0.0 || b.dx < 0.0)
  }

  // No bounce ever goes the wrong way, whatever the speed, and only hits change it.
  lemma FlightLaw(ph: Physics, b: Ball, y1: real, y2: real)
    requires Lawful(ph) && Aimed(b)
    ensures var f := Fly(ph, b, y1, y2);
      && !f.Panic?
      && (f.InPlay? ==> Aimed(f.ball) && f.hits <= 2 && Energy(f.ball) == Boost(Energy(b), f.hits))
  {
    ReflectLaw(b);
    EdgesLaw(ph, Reflect(b), Crossing(b, Reflect(b), 0.0), y1, b, y2);
  }

  lemma EdgesLaw(ph: Physics, r: Ball, yl: real, y1: real, b: Ball, y2: real)
    requires Lawful(ph) && r.dx != 0.0 && (r.x <= 0.0 ==> r.dx < 0.0) && (r.x > BOARD_WIDTH ==> r.dx > 0.0)
    ensures var f := Edges(ph, r, yl, y1, b, y2);
      && !f.Panic?
      && (f.InPlay? ==> Aimed(f.ball) && f.hits <= 2 && Energy(f.ball) == Boost(Energy(r), f.hits))
  {
    LeftEdgeLaw(ph, r, yl, y1);
    var left := LeftEdge(ph, r, yl, y1);
    if left.InPlay? {
      RightEdgeLaw(ph, left.ball, left.hits, Crossing(b, left.ball, BOARD_WIDTH), y2);
      BoostSmall(Energy(r));
    }
  }

  lemma ReflectLaw(b: Ball)
    ensures Energy(Reflect(b)) == Energy(b)
  {
  }

  lemma BoostSmall(e: real)
    ensures Boost(e, 0) == e && Boost(e, 1) == 1.1025 * e && Boost(e, 2) == 1.1025 * (1.1025 * e)
  {
  }

  lemma LeftEdgeLaw(ph: Physics, r: Ball, y: real, y1: real)
    requires Lawful(ph) && r.dx != 0.0 && (r.x <= 0.0 ==> r.dx < 0.0) && (r.x > BOARD_WIDTH ==> r.dx > 0.0)
    ensures var f := LeftEdge(ph, r, y, y1);
      && !f.Panic?
      && (f.InPlay? ==>
            && f.ball.x >= 0.0 && (f.ball.x > BOARD_WIDTH ==> f.ball.dx > 0.0)
            && f.hits <= 1 && Energy(f.ball) == if f.hits == 0 then Energy(r) else 1.1025 * Energy(r))
  {
    if r.x <= 0.0 && !Misses(y, y1) {
      BounceLaw(ph, r.dx, r.dy, y, y1);
    }
  }

  lemma RightEdgeLaw(ph: Physics, r: Ball, hits: nat, y: real, y2: real)
    requires Lawful(ph) && r.dx != 0.0 && (r.x > BOARD_WIDTH ==> r.dx > 0.0)
    ensures var f := RightEdge(ph, r, hits, y, y2);
      && !f.Panic?
      && (f.InPlay? && r.x <= BOARD_WIDTH ==> f == InPlay(r, hits))
      && (f.InPlay? && r.x > BOARD_WIDTH ==>
            f.hits == hits + 1 && f.ball.dx < 0.0 && f.ball.x < BOARD_WIDTH && Energy(f.ball) == 1.1025 * Energy(r))
  {
    if r.x > BOARD_WIDTH && !Misses(y, y2) {
      BounceLaw(ph, r.dx, r.dy, y, y2);
    }
  }

  predicate OnBoard(b: Ball) {
    0.0 <= b.x <= BOARD_WIDTH && 0.0 <= b.y <= BOARD_HEIGHT
  }

  // A ball that stays in play stays on the board exactly when it does not overshoot a side by more
  // than the board is wide, nor, unless it reaches a side, top or bottom by more than it is high.
  lemma StaysOnBoardIff(ph: Physics, b: Ball, y1: real, y2: real)
    requires Lawful(ph) && b.dx != 0.0 && OnBoard(b) && OnRail(y1) && OnRail(y2) && Fly(ph, b, y1, y2).InPlay?
    ensures var f := Fly(ph, b, y1, y2);
      OnBoard(f.ball) <==>
        && -2.0 * BOARD_WIDTH <= b.x + b.dx <= 2.0 * BOARD_WIDTH
        && (!(0.0 < b.x + b.dx <= BOARD_WIDTH) || -BOARD_HEIGHT <= b.y + b.dy <= 2.0 * BOARD_HEIGHT)
  {
  }

  // ---------- how fast the ball can get ----------

  lemma Boost8(e: real, n: nat)
    requires Boost(e, n) >= 0.0
    ensures 0.0 <= Boost(e, n + 8) <= 2.1829 * Boost(e, n)
    ensures Boost(e, n + 7) <= 1.98 * Boost(e, n)
  {
    var b := Boost(e, n);
    assert Boost(e, n + 1) == 1.1025 * b;
    assert Boost(e, n + 2) == 1.1025 * Boost(e, n + 1);
    assert Boost(e, n + 3) == 1.1025 * Boost(e, n + 2);
    assert Boost(e, n + 4) == 1.1025 * Boost(e, n + 3);
    assert Boost(e, n + 5) == 1.1025 * Boost(e, n + 4);
    assert Boost(e, n + 6) == 1.1025 * Boost(e, n + 5);
    assert Boost(e, n + 7) == 1.1025 * Boost(e, n + 6);
    assert Boost(e, n + 8) == 1.1025 * Boost(e, n + 7);
  }

  lemma Boost32(e: real, n: nat)
    requires Boost(e, n) >= 0.0
    ensures 0.0 <= Boost(e, n + 32) <= 22.7063 * Boost(e, n)
  {
    Boost8(e, n);
    Boost8(e, n + 8);
    Boost8(e, n + 16);
    Boost8(e, n + 24);
  }

  lemma {:induction false} BoostGrows(e: real, a: nat, b: nat)
    requires e >= 0.0 && a <= b
    ensures 0.0 <= Boost(e, a) <= Boost(e, b)
  {
    if b > 0 {
      BoostGrows(e, if a < b then a else a - 1, b - 1);
    }
  }

  // A serve starts at speed 0.02.
  const SERVE_ENERGY: real := 0.0004

  // Up to 127 hits the ball covers at most 10 units in a step.
  lemma SpeedLimit(hits: nat)
    requires hits <= 127
    ensures Boost(SERVE_ENERGY, hits) <= 100.0
  {
    Boost32(SERVE_ENERGY, 0);
    Boost32(SERVE_ENERGY, 32);
    Boost32(SERVE_ENERGY, 64);
    Boost8(SERVE_ENERGY, 96);
    Boost8(SERVE_ENERGY, 104);
    Boost8(SERVE_ENERGY, 112);
    Boost8(SERVE_ENERGY, 120);
    BoostGrows(SERVE_ENERGY, hits, 127);
  }

  lemma SlowBall(b: Ball)
    requires Energy(b) <= 100.0
    ensures -10.0 <= b.dx <= 10.0 && -10.0 <= b.dy <= 10.0
  {
  }

  // ---------- the game ----------

  predicate IsServe(v: (real, real)) {
    Square(v.0) + Square(v.1) == 1.0 && Abs(v.0) >= 0.2
  }

  // A random direction that the serving loop accepts.
  type Serve = v: (real, real) | IsServe(v) witness (1.0, 0.0)

  // `hits` counts the paddle hits since the serve.
  datatype Game = Game(num: nat, score1: nat, score2: nat, ball: Ball, y1: real, y2: real, time: nat,
                       player1: Option<Hand>, player2: Option<Hand>, hits: nat)

  const NEW := Game(0, 0, 0, Ball(0.0, 0.0, 0.0, 0.0), 0.0, 0.0, 0, None, None, 0)

  predicate Ready(g: Game) {
    g.player1.Some? && g.player2.Some?
  }

  function AtRest(p: Option<Hand>): Option<Hand> {
    if p.Some? then Some(Stop) else None
  }

  function NewGame(g: Game, v: Serve): Game {
    g.(num := g.num + 1,
       ball := Ball(BOARD_WIDTH / 2.0, BOARD_HEIGHT / 2.0, v.0 * TIME_SCALE_FACTOR, v.1 * TIME_SCALE_FACTOR),
       y1 := BOARD_HEIGHT / 2.0, y2 := BOARD_HEIGHT / 2.0, time := 0,
       player1 := AtRest(g.player1), player2 := AtRest(g.player2), hits := 0)
  }

  function Abandon(g: Game, v: Serve): Game {
    NewGame(g, v).(num := 0, score1 := 0, score2 := 0)
  }

  // A service in some state, or dead of one of its panics.
  datatype World = Running(game: Game) | TooManyClients | WrongDirection

  // The part of a step after a possible first serve.
  function Play(ph: Physics, g: Game, v: Serve): World
    requires Ready(g) && g.ball.dx != 0.0
  {
    var y1 := MovePaddle(g.y1, g.player1.value);
    if y1.None? then Running(Abandon(g.(player1 := None), v))
    else
      var y2 := MovePaddle(g.y2, g.player2.value);
      if y2.None? then Running(Abandon(g.(player2 := None), v))
      else
        var moved := g.(y1 := y1.value, y2 := y2.value);
        match Fly(ph, g.ball, y1.value, y2.value)
        case Panic => WrongDirection
        case Missed1 => Running(NewGame(moved.(score2 := g.score2 + 1), v))
        case Missed2 => Running(NewGame(moved.(score1 := g.score1 + 1), v))
        case InPlay(b, hits) => Running(moved.(ball := b, hits := g.hits + hits))
  }

  function Step(ph: Physics, g: Game, first: Serve, second: Serve): World
    requires g.num > 0 ==> g.ball.dx != 0.0
  {
    if !Ready(g) then Running(g) else Play(ph, Begun(g, first), second)
  }

  // The game the step is taken in: the first serve, if there was none yet.
  function Begun(g: Game, v: Serve): (r: Game)
    ensures Ready(g) == Ready(r) && (g.num == 0 ==> r.ball.dx != 0.0)
  {
    var g1 := if g.num == 0 then NewGame(g, v) else g;
    assert g.num == 0 ==> g1.ball.dx == v.0 * TIME_SCALE_FACTOR;
    g1.(time := g1.time + 1)
  }

  function Register(g: Game): World {
    if g.player1.None? then Running(g.(player1 := Some(Stop)))
    else if g.player2.None? then Running(g.(player2 := Some(Stop)))
    else TooManyClients
  }

  // What the invariant says while a game is on.
  ghost predicate GameOn(g: Game) {
    && g.score1 + g.score2 == g.num - 1
    && OnRail(g.y1) && OnRail(g.y2)
    && Aimed(g.ball) && Energy(g.ball) == Boost(SERVE_ENERGY, g.hits)
    && (g.hits <= 127 ==> OnBoard(g.ball))
  }

  ghost predicate Inv(g: Game) {
    if g.num == 0 then g.score1 == 0 && g.score2 == 0 else GameOn(g)
  }

  lemma NewGameIsOn(g: Game, v: Serve)
    requires g.score1 + g.score2 == g.num
    ensures GameOn(NewGame(g, v))
  {
  }

  lemma {:induction false} BoostAdds(e: real, a: nat, b: nat)
    ensures Boost(Boost(e, a), b) == Boost(e, a + b)
  {
    if b > 0 {
      BoostAdds(e, a, b - 1);
    }
  }

  lemma PlayKeepsInv(ph: Physics, g: Game, v: Serve)
    requires Lawful(ph) && Ready(g) && g.num > 0 && GameOn(g)
    ensures var w := Play(ph, g, v); w.Running? && Inv(w.game)
  {
    var y1, y2 := MovePaddle(g.y1, g.player1.value), MovePaddle(g.y2, g.player2.value);
    if y1.Some? && y2.Some? {
      FlightLaw(ph, g.ball, y1.value, y2.value);
      var moved := g.(y1 := y1.value, y2 := y2.value);
      match Fly(ph, g.ball, y1.value, y2.value)
      case Missed1 => NewGameIsOn(moved.(score2 := g.score2 + 1), v);
      case Missed2 => NewGameIsOn(moved.(score1 := g.score1 + 1), v);
      case InPlay(b, hits) =>
        BoostAdds(SERVE_ENERGY, g.hits, hits);
        if g.hits <= 127 {
          SpeedLimit(g.hits);
          SlowBall(g.ball);
          StaysOnBoardIff(ph, g.ball, y1.value, y2.value);
        }
    }
  }

  // ---------- whole runs ----------

  datatype Event = Joins | Signals(first: bool, hand: Hand) | Ticks(serve1: Serve, serve2: Serve)

  function Handle(ph: Physics, w: World, ev: Event): World
    requires w.Running? && w.game.num > 0 ==> w.game.ball.dx != 0.0
  {
    if !w.Running? then w
    else
      var g := w.game;
      match ev
      case Joins => Register(g)
      case Signals(first, hand) =>
        if first && g.player1.Some? then Running(g.(player1 := Some(hand)))
        else if !first && g.player2.Some? then Running(g.(player2 := Some(hand)))
        else w
      case Ticks(v, v') => Step(ph, g, v, v')
  }

  lemma StepKeepsInv(ph: Physics, g: Game, v: Serve, v': Serve)
    requires Lawful(ph) && Inv(g)
    ensures var w := Step(ph, g, v, v'); w.Running? && Inv(w.game)
  {
    if Ready(g) {
      BegunIsOn(g, v);
      PlayKeepsInv(ph, Begun(g, v), v');
    }
  }

  lemma BegunIsOn(g: Game, v: Serve)
    requires Inv(g)
    ensures Begun(g, v).num > 0 && GameOn(Begun(g, v))
  {
    if g.num == 0 {
      NewGameIsOn(g, v);
    }
  }

  lemma HandleKeepsInv(ph: Physics, w: World, ev: Event)
    requires Lawful(ph) && w != WrongDirection && (w.Running? ==> Inv(w.game))
    ensures var w' := Handle(ph, w, ev); w' != WrongDirection && (w'.Running? ==> Inv(w'.game))
  {
    if w.Running? && ev.Ticks? {
      StepKeepsInv(ph, w.game, ev.serve1, ev.serve2);
    }
  }

  // A game without a moving ball has no next step; no run gets there.
  predicate Stalled(w: World) {
    w.Running? && w.game.num > 0 && w.game.ball.dx == 0.0
  }

  function After(ph: Physics, events: seq<Event>): World {
    if events == [] then Running(NEW)
    else
      var before := After(ph, events[..|events| - 1]);
      if Stalled(before) then before else Handle(ph, before, events[|events| - 1])
  }

  // In every run of joins, signals, disconnects and ticks the service never panics about the
  // direction of the ball, and keeps score, paddles and ball in order.
  lemma {:induction false} EveryRunKeepsInv(ph: Physics, events: seq<Event>)
    requires Lawful(ph)
    ensures var w := After(ph, events); w != WrongDirection && !Stalled(w) && (w.Running? ==> Inv(w.game))
  {
    if events != [] {
      var before := After(ph, events[..|events| - 1]);
      EveryRunKeepsInv(ph, events[..|events| - 1]);
      HandleKeepsInv(ph, before, events[|events| - 1]);
    }
  }

  // The ball cannot overshoot by a whole board in one step.
  predicate Slow(w: World) {
    w.Running? && w.game.num > 0 ==>
      Abs(w.game.ball.dx) <= BOARD_WIDTH && Abs(w.game.ball.dy) <= BOARD_HEIGHT
  }

  predicate BallOnBoard(w: World) {
    w.Running? && w.game.num > 0 ==> OnBoard(w.game.ball)
  }

  lemma PlayStaysOnBoard(ph: Physics, g: Game, v: Serve)
    requires Lawful(ph) && Ready(g) && g.num > 0 && GameOn(g) && OnBoard(g.ball) && Slow(Running(g))
    ensures BallOnBoard(Play(ph, g, v))
  {
    var y1, y2 := MovePaddle(g.y1, g.player1.value), MovePaddle(g.y2, g.player2.value);
    if y1.Some? && y2.Some? && Fly(ph, g.ball, y1.value, y2.value).InPlay? {
      StaysOnBoardIff(ph, g.ball, y1.value, y2.value);
    }
  }

  lemma ServeIsSlow(g: Game, v: Serve)
    requires g.num == 0
    ensures OnBoard(Begun(g, v).ball) && Slow(Running(Begun(g, v)))
  {
    var b := NewGame(g, v).ball;
    assert b == Begun(g, v).ball;
    assert Square(v.0) + Square(v.1) == 1.0;
    UnitIsSmall(v.0, v.1);
  }

  lemma UnitIsSmall(x: real, y: real)
    requires Square(x) + Square(y) == 1.0
    ensures -1.0 <= x <= 1.0 && -1.0 <= y <= 1.0
  {
  }

  lemma HandleStaysOnBoard(ph: Physics, w: World, ev: Event)
    requires Lawful(ph) && w != WrongDirection && !Stalled(w) && (w.Running? ==> Inv(w.game))
    requires BallOnBoard(w) && Slow(w)
    ensures BallOnBoard(Handle(ph, w, ev))
  {
    if w.Running? && ev.Ticks? && Ready(w.game) {
      BegunIsOn(w.game, ev.serve1);
      if w.game.num == 0 {
        ServeIsSlow(w.game, ev.serve1);
      }
      PlayStaysOnBoard(ph, Begun(w.game, ev.serve1), ev.serve2);
    }
  }

  // In every run the ball is on the board for as long as no step so far began with a ball that
  // covers more than the width or the height of the board in one step.
  lemma {:induction false} OnBoardWhileSlow(ph: Physics, events: seq<Event>)
    requires Lawful(ph) && forall k | 0 <= k < |events| :: Slow(After(ph, events[..k]))
    ensures BallOnBoard(After(ph, events))
  {
    if events != [] {
      var init := events[..|events| - 1];
      assert forall k | 0 <= k < |init| :: init[..k] == events[..k];
      OnBoardWhileSlow(ph, init);
      EveryRunKeepsInv(ph, init);
      HandleStaysOnBoard(ph, After(ph, init), events[|events| - 1]);
    }
  }

  // ---------- who gets the point ----------

  // Where a paddle is after a step: up is towards 0.
  function PaddleAfter(pos: real, hand: Hand): (y: real)
    ensures OnRail(y)
  {
    var to := pos + if hand == Up then -0.008 else if hand == Down then 0.008 else 0.0;
    if to < 0.5 then 0.5 else if to > 9.5 then 9.5 else to
  }

  lemma PaddleAfterIs(pos: real, hand: Hand)
    requires hand != Disconnected
    ensures MovePaddle(pos, hand) == Some(PaddleAfter(pos, hand))
  {
  }

  // The vertical speed after a step without a hit: top and bottom turn it around.
  function Turned(b: Ball): real {
    if 0.0 < b.y + b.dy <= 10.0 then b.dy else -b.dy
  }

  // The height at which the line through the ball, with this velocity, meets a side.
  function HeightAt(b: Ball, dx: real, dy: real, side: real): real
    requires dx != 0.0
  {
    b.y + (side - b.x) * dy / dx
  }

  // More than half a paddle away.
  predicate Far(y: real, paddle: real) {
    Abs(y - paddle) > 0.5
  }

  // The ball gets to the left side, and the paddle is elsewhere.
  predicate LeftMiss(b: Ball, y1: real)
    requires b.dx != 0.0
  {
    b.x + b.dx <= 0.0 && Far(HeightAt(b, b.dx, Turned(b), 0.0), y1)
  }

  predicate RightMiss(b: Ball, y2: real)
    requires b.dx != 0.0
  {
    b.x + b.dx > 20.0 && Far(HeightAt(b, b.dx, Turned(b), 20.0), y2)
  }

  // The velocity with which the left paddle returns the ball.
  function Returned(ph: Physics, b: Ball, y1: real): (real, real)
    requires b.dx != 0.0
  {
    var angle := (HeightAt(b, b.dx, Turned(b), 0.0) - y1) / 0.5;
    var speed := 1.05 * ph.norm(b.dx, Turned(b));
    (speed * ph.cos(angle), speed * ph.sin(angle))
  }

  // A ball so fast that the left paddle returns it past the right side in the same step.
  predicate ReturnMiss(ph: Physics, b: Ball, y1: real, y2: real)
    requires b.dx != 0.0
  {
    var v := Returned(ph, b, y1);
    && b.x + b.dx < -20.0 && !LeftMiss(b, y1)
    && v.0 != 0.0 && Far(HeightAt(b, v.0, v.1, 20.0), y2)
  }

  lemma MissesIsFar(y: real, paddle: real)
    ensures Misses(y, paddle) <==> Far(y, paddle)
  {
  }

  lemma CrossingIsHeight(b: Ball, r: Ball, side: real)
    requires r.dx != 0.0
    ensures Crossing(b, r, side) == HeightAt(b, r.dx, r.dy, side)
  {
  }

  lemma ReflectTurns(b: Ball)
    ensures var r := Reflect(b); r.x == b.x + b.dx && r.dx == b.dx && r.dy == Turned(b)
  {
  }

  lemma BounceAtLeft(ph: Physics, dx: real, dy: real, y: real, y1: real)
    requires Lawful(ph) && dx < 0.0 && !Misses(y, y1)
    ensures var u, v := (y - y1) / 0.5, Bounce(ph, dx, dy, y, y1);
      && v.Some? && v.value.0 > 0.0
      && v.value.0 == 1.05 * ph.norm(dx, dy) * ph.cos(u) && v.value.1 == 1.05 * ph.norm(dx, dy) * ph.sin(u)
  {
    var u := (y - y1) / (PADDLE_SIZE / 2.0);
    assert u == (y - y1) / 0.5;
    BounceLaw(ph, dx, dy, y, y1);
    assert Bounce(ph, dx, dy, y, y1).value.0 == Across(ph, dx, dy, u);
    assert Bounce(ph, dx, dy, y, y1).value.1 == Along(ph, dx, dy, u);
    ReturnedIsBounce(ph, dx, dy, u);
  }

  lemma ReturnIs(ph: Physics, b: Ball, y1: real)
    requires Lawful(ph) && b.dx < 0.0 && !Misses(HeightAt(b, b.dx, Turned(b), 0.0), y1)
    ensures Returned(ph, b, y1).0 > 0.0
    ensures Bounce(ph, b.dx, Turned(b), HeightAt(b, b.dx, Turned(b), 0.0), y1) == Some(Returned(ph, b, y1))
  {
    var y := HeightAt(b, b.dx, Turned(b), 0.0);
    BounceAtLeft(ph, b.dx, Turned(b), y, y1);
    assert Bounce(ph, b.dx, Turned(b), y, y1).value.0 == Returned(ph, b, y1).0;
    assert Bounce(ph, b.dx, Turned(b), y, y1).value.1 == Returned(ph, b, y1).1;
  }

  lemma ReturnedIsBounce(ph: Physics, dx: real, dy: real, u: real)
    requires dx < 0.0
    ensures Across(ph, dx, dy, u) == 1.05 * ph.norm(dx, dy) * ph.cos(u)
    ensures Along(ph, dx, dy, u) == 1.05 * ph.norm(dx, dy) * ph.sin(u)
  {
  }

  // How a flight ends, on positions alone.
  lemma FlightIs(ph: Physics, b: Ball, y1: real, y2: real)
    requires Lawful(ph) && Aimed(b)
    ensures var f := Fly(ph, b, y1, y2);
      && (f.Missed1? <==> LeftMiss(b, y1))
      && (f.Missed2? <==> RightMiss(b, y2) || ReturnMiss(ph, b, y1, y2))
      && !f.Panic?
  {
    var r := Reflect(b);
    FlightLaw(ph, b, y1, y2);
    ReflectTurns(b);
    CrossingIsHeight(b, r, 0.0);
    CrossingIsHeight(b, r, 20.0);
    var y := HeightAt(b, b.dx, Turned(b), 0.0);
    MissesIsFar(y, y1);
    if r.x <= 0.0 {
      if !Far(y, y1) {
        ReturnIs(ph, b, y1);
        ReturnedFlight(ph, b, r, y1, y2);
      }
    } else {
      MissesIsFar(HeightAt(b, b.dx, Turned(b), 20.0), y2);
    }
  }

  lemma ReturnedFlight(ph: Physics, b: Ball, r: Ball, y1: real, y2: real)
    requires r == Reflect(b) && b.dx < 0.0 && r.x <= 0.0 && !LeftMiss(b, y1)
    requires var y := HeightAt(b, b.dx, Turned(b), 0.0);
      && !Misses(y, y1) && Crossing(b, r, 0.0) == y
      && Bounce(ph, r.dx, r.dy, y, y1) == Some(Returned(ph, b, y1)) && Returned(ph, b, y1).0 > 0.0
    ensures Fly(ph, b, y1, y2).Missed2? <==> ReturnMiss(ph, b, y1, y2)
    ensures !Fly(ph, b, y1, y2).Missed1?
  {
    var v := Returned(ph, b, y1);
    var left := Ball(-r.x, Crossing(b, r, 0.0), v.0, v.1);
    assert LeftEdge(ph, r, Crossing(b, r, 0.0), y1) == InPlay(left, 1);
    CrossingIsHeight(b, left, 20.0);
    MissesIsFar(HeightAt(b, v.0, v.1, 20.0), y2);
  }

  // Nobody has left, so the step is played.
  predicate BothThere(g: Game) {
    Ready(g) && g.player1 != Some(Disconnected) && g.player2 != Some(Disconnected)
  }

  // A miss at the left is a point for player 2, a miss at the right one for player 1, and nothing else
  // is; after a point the ball is served from the middle.
  lemma ScoreIs(ph: Physics, g: Game, v: Serve, v': Serve)
    requires Lawful(ph) && Inv(g) && g.num > 0 && BothThere(g)
    ensures var w := Step(ph, g, v, v');
      var y1, y2 := PaddleAfter(g.y1, g.player1.value), PaddleAfter(g.y2, g.player2.value);
      && w.Running?
      && w.game.score2 == g.score2 + (if LeftMiss(g.ball, y1) then 1 else 0)
      && w.game.score1 == g.score1 + (if RightMiss(g.ball, y2) || ReturnMiss(ph, g.ball, y1, y2) then 1 else 0)
      && w.game.num == g.num + w.game.score1 + w.game.score2 - g.score1 - g.score2
      && (w.game.num != g.num ==>
            && w.game.ball == Ball(10.0, 5.0, v'.0 * 0.02, v'.1 * 0.02)
            && w.game.y1 == w.game.y2 == 5.0 && w.game.player1 == w.game.player2 == Some(Stop))
  {
    PaddleAfterIs(g.y1, g.player1.value);
    PaddleAfterIs(g.y2, g.player2.value);
    FlightIs(ph, g.ball, PaddleAfter(g.y1, g.player1.value), PaddleAfter(g.y2, g.player2.value));
  }

  // A ball that cannot cross the board in a step is not returned past the other side.
  lemma SlowBallsAreNotReturnedPast(ph: Physics, b: Ball, y1: real, y2: real)
    requires b.dx != 0.0 && 0.0 <= b.x && Abs(b.dx) <= BOARD_WIDTH
    ensures !ReturnMiss(ph, b, y1, y2)
  {
  }

  // The first step of a game moves the ball by less than a hundredth of the way.
  lemma NoPointAtServe(ph: Physics, g: Game, v: Serve, v': Serve)
    requires Lawful(ph) && g.num == 0 && Inv(g) && Ready(g)
    ensures var w := Step(ph, g, v, v'); w.Running? && w.game.score1 == 0 && w.game.score2 == 0
  {
    var on := Begun(g, v);
    BegunIsOn(g, v);
    assert BothThere(on);
    PaddleAfterIs(on.y1, on.player1.value);
    PaddleAfterIs(on.y2, on.player2.value);
    ServeIsSlow(g, v);
    ServeStaysInside(g, v);
    FlightIs(ph, on.ball, PaddleAfter(on.y1, on.player1.value), PaddleAfter(on.y2, on.player2.value));
  }

  lemma ServeStaysInside(g: Game, v: Serve)
    requires g.num == 0
    ensures var b := Begun(g, v).ball; 0.0 < b.x + b.dx <= 20.0
  {
    assert Begun(g, v).ball == NewGame(g, v).ball;
    UnitIsSmall(v.0, v.1);
  }

  datatype Points = Points(first: nat, second: nat)

  // The misses at the right and at the left since the last time a game was abandoned.
  function MissesSoFar(ph: Physics, events: seq<Event>): Points {
    if events == [] then Points(0, 0)
    else
      var n := |events| - 1;
      var p, w := MissesSoFar(ph, events[..n]), After(ph, events[..n]);
      if !w.Running? || !events[n].Ticks? || !Ready(w.game) || w.game.num == 0 || Stalled(w) then p
      else if !BothThere(w.game) then Points(0, 0)
      else
        var g := w.game;
        var y1, y2 := PaddleAfter(g.y1, g.player1.value), PaddleAfter(g.y2, g.player2.value);
        if LeftMiss(g.ball, y1) then Points(p.first, p.second + 1)
        else if RightMiss(g.ball, y2) || ReturnMiss(ph, g.ball, y1, y2) then Points(p.first + 1, p.second)
        else p
  }

  lemma AbandonClears(ph: Physics, g: Game, v: Serve, v': Serve)
    requires Inv(g) && g.num > 0 && Ready(g) && !BothThere(g)
    ensures var w := Step(ph, g, v, v'); w.Running? && w.game.score1 == 0 && w.game.score2 == 0
  {
  }

  // In every run the scores count the misses.
  lemma {:induction false} ScoresCountMisses(ph: Physics, events: seq<Event>)
    requires Lawful(ph)
    ensures var w := After(ph, events);
      w.Running? ==> Points(w.game.score1, w.game.score2) == MissesSoFar(ph, events)
  {
    if events != [] {
      var n := |events| - 1;
      var before, ev := After(ph, events[..n]), events[n];
      ScoresCountMisses(ph, events[..n]);
      EveryRunKeepsInv(ph, events[..n]);
      if before.Running? && ev.Ticks? && Ready(before.game) {
        if before.game.num == 0 {
          NoPointAtServe(ph, before.game, ev.serve1, ev.serve2);
        } else if BothThere(before.game) {
          ScoreIs(ph, before.game, ev.serve1, ev.serve2);
        } else {
          AbandonClears(ph, before.game, ev.serve1, ev.serve2);
        }
      }
    }
  }

  // ---------- where the ball goes ----------

  // The height after a step without a hit: mirrored at top and bottom.
  function Mirrored(b: Ball): real {
    var y := b.y + b.dy;
    if y <= 0.0 then -y else if y > 10.0 then 20.0 - y else y
  }

  // Between the sides the ball moves by its velocity.
  lemma FreeFlight(ph: Physics, g: Game, v: Serve, v': Serve)
    requires Lawful(ph) && Inv(g) && g.num > 0 && BothThere(g) && 0.0 < g.ball.x + g.ball.dx <= 20.0
    ensures Step(ph, g, v, v') ==
      Running(g.(ball := Ball(g.ball.x + g.ball.dx, Mirrored(g.ball), g.ball.dx, Turned(g.ball)), time := g.time + 1,
                 y1 := PaddleAfter(g.y1, g.player1.value), y2 := PaddleAfter(g.y2, g.player2.value)))
  {
    PaddleAfterIs(g.y1, g.player1.value);
    PaddleAfterIs(g.y2, g.player2.value);
    ReflectTurns(g.ball);
    assert Reflect(g.ball).y == Mirrored(g.ball);
  }

  // What a ball is like that a paddle at `y` has returned from the height `at`, mirrored to `x`.
  ghost predicate Struck(b: Ball, x: real, at: real, y: real, leftwards: bool, energy: real) {
    && b.x == x && b.y == at && (b.dx < 0.0 <==> leftwards) && b.dx != 0.0
    && (b.dy > 0.0 <==> at > y) && (b.dy < 0.0 <==> at < y)
    && Energy(b) == 1.1025 * energy
  }

  lemma TurnedEnergy(b: Ball)
    ensures Square(b.dx) + Square(Turned(b)) == Energy(b)
  {
  }

  // A ball that reaches a paddle at one side, and not the other side in the same step, comes back from
  // it, faster, in the direction of the half that was hit.
  lemma HitReturns(ph: Physics, b: Ball, y1: real, y2: real)
    requires Lawful(ph) && Aimed(b)
    ensures var f := Fly(ph, b, y1, y2);
      var left, right := HeightAt(b, b.dx, Turned(b), 0.0), HeightAt(b, b.dx, Turned(b), 20.0);
      && (-20.0 <= b.x + b.dx <= 0.0 && !Far(left, y1) ==>
            f.InPlay? && f.hits == 1 && Struck(f.ball, -(b.x + b.dx), left, y1, false, Energy(b)))
      && (b.x + b.dx > 20.0 && !Far(right, y2) ==>
            f.InPlay? && f.hits == 1 && Struck(f.ball, 40.0 - (b.x + b.dx), right, y2, true, Energy(b)))
  {
    var r := Reflect(b);
    ReflectTurns(b);
    TurnedEnergy(b);
    CrossingIsHeight(b, r, 0.0);
    CrossingIsHeight(b, r, 20.0);
    var left, right := HeightAt(b, b.dx, Turned(b), 0.0), HeightAt(b, b.dx, Turned(b), 20.0);
    MissesIsFar(left, y1);
    MissesIsFar(right, y2);
    if r.x <= 0.0 && !Far(left, y1) {
      BounceLaw(ph, r.dx, r.dy, left, y1);
    } else if r.x > 20.0 && !Far(right, y2) {
      BounceLaw(ph, r.dx, r.dy, right, y2);
    }
  }

  // ---------- departures ----------

  // A step vacates a seat only when its player is gone, and then exactly when the game was on
  // before the step and, for the second seat, the first player is not gone too: a serve puts every
  // paddle at rest, a vanished player's included.
  lemma DepartureIsNoticedIff(ph: Physics, g: Game, v: Serve, v': Serve)
    requires Lawful(ph) && Inv(g) && Ready(g)
    ensures var w := Step(ph, g, v, v');
      && w.Running?
      && (w.game.player1 == None <==> g.player1 == Some(Disconnected) && g.num > 0)
      && (w.game.player2 == None <==> g.player2 == Some(Disconnected) && g.num > 0 && g.player1 != Some(Disconnected))
  {
    StepKeepsInv(ph, g, v, v');
  }

  lemma AfterSnoc(ph: Physics, events: seq<Event>, ev: Event)
    requires !Stalled(After(ph, events))
    ensures After(ph, events + [ev]) == Handle(ph, After(ph, events), ev)
  {
    assert (events + [ev])[..|events|] == events;
  }

  const LEFT_EARLY := [Joins, Signals(true, Disconnected), Joins]

  lemma LeavesEarly(ph: Physics)
    ensures After(ph, LEFT_EARLY) == Running(NEW.(player1 := Some(Disconnected), player2 := Some(Stop)))
  {
    var early := [Joins] + [Signals(true, Disconnected)];
    OneJoins(ph);
    AfterSnoc(ph, [Joins], Signals(true, Disconnected));
    assert After(ph, early) == Running(NEW.(player1 := Some(Disconnected)));
    AfterSnoc(ph, early, Joins);
    assert early + [Joins] == LEFT_EARLY;
  }

  lemma OneJoins(ph: Physics)
    ensures After(ph, [Joins]) == Running(NEW.(player1 := Some(Stop)))
  {
    AfterSnoc(ph, [], Joins);
    assert [] + [Joins] == [Joins];
  }

  // Who leaves before the first serve keeps the seat, and the other player plays against nobody.
  lemma EarlyDepartureIsForgotten(ph: Physics) returns (v: Serve)
    ensures var w := After(ph, LEFT_EARLY + [Ticks(v, v)]); w.Running? && w.game.num > 0 && w.game.player1 == Some(Stop)
  {
    LeavesEarly(ph);
    var g := NEW.(player1 := Some(Disconnected), player2 := Some(Stop));
    v := StraightServe(g);
    AfterSnoc(ph, LEFT_EARLY, Ticks(v, v));
    ServeInFlight(ph, g, v);
  }

  // ---------- off the board ----------

  // Both paddles rest in the middle, and the ball flies along the line between them.
  predicate Midline(g: Game) {
    && g.num > 0 && g.player1 == Some(Stop) && g.player2 == Some(Stop)
    && g.y1 == g.y2 == g.ball.y == 5.0 && g.ball.dy == 0.0 && g.ball.dx != 0.0
  }

  lemma SquareGrows(a: real, b: real)
    requires 0.0 <= a < b
    ensures a * a < b * b
  {
    MulPositive(b - a, b + a);
    assert (b - a) * (b + a) == b * b - a * a;
  }

  lemma NormOnAxis(ph: Physics, dx: real)
    requires Lawful(ph)
    ensures ph.norm(dx, 0.0) == Abs(dx)
  {
    var n, a := ph.norm(dx, 0.0), Abs(dx);
    assert Square(n) == Square(dx) + Square(0.0);
    assert n * n == a * a;
    if n < a {
      SquareGrows(n, a);
    } else if a < n {
      SquareGrows(a, n);
    }
  }

  lemma CenterBounce(ph: Physics, dx: real)
    requires Lawful(ph) && dx != 0.0
    ensures Bounce(ph, dx, 0.0, 5.0, 5.0) == Some((-BALL_SPEEDUP_MULTIPLIER * dx, 0.0))
  {
    NormOnAxis(ph, dx);
    var u := (5.0 - 5.0) / (PADDLE_SIZE / 2.0);
    assert u == 0.0;
    assert Across(ph, dx, 0.0, u) == -BALL_SPEEDUP_MULTIPLIER * dx;
    assert dx * (-BALL_SPEEDUP_MULTIPLIER * dx) == -BALL_SPEEDUP_MULTIPLIER * Square(dx);
    SquareIsPositive(dx);
  }

  // What a step does to a ball on the middle line: nothing but move it, or a hit that makes it
  // faster.
  ghost predicate MovesOn(b: Ball, f: Flight) {
    && f.InPlay? && f.ball.y == 5.0 && f.ball.dy == 0.0 && f.ball.dx != 0.0
    && (if 0.0 < b.x + b.dx <= BOARD_WIDTH
        then f == InPlay(b.(x := b.x + b.dx), 0)
        else Abs(f.ball.dx) >= BALL_SPEEDUP_MULTIPLIER * Abs(b.dx))
    && (Abs(b.dx) > 60.0 ==> !OnBoard(f.ball))
  }

  lemma MiddleLeft(ph: Physics, b: Ball, x: real, dx: real)
    requires Lawful(ph) && b.y == 5.0 && dx != 0.0 && (x <= 0.0 ==> dx < 0.0)
    ensures var r := Ball(x, 5.0, dx, 0.0);
      LeftEdge(ph, r, Crossing(b, r, 0.0), 5.0) ==
      if x > 0.0 then InPlay(r, 0) else InPlay(Ball(-x, 5.0, -BALL_SPEEDUP_MULTIPLIER * dx, 0.0), 1)
  {
    CenterBounce(ph, dx);
    assert Crossing(b, Ball(x, 5.0, dx, 0.0), 0.0) == 5.0;
  }

  lemma MiddleRight(ph: Physics, b: Ball, x: real, dx: real, hits: nat)
    requires Lawful(ph) && b.y == 5.0 && dx != 0.0 && (x > BOARD_WIDTH ==> dx > 0.0)
    ensures var r := Ball(x, 5.0, dx, 0.0);
      RightEdge(ph, r, hits, Crossing(b, r, BOARD_WIDTH), 5.0) ==
      if x <= BOARD_WIDTH then InPlay(r, hits)
      else InPlay(Ball(2.0 * BOARD_WIDTH - x, 5.0, -BALL_SPEEDUP_MULTIPLIER * dx, 0.0), hits + 1)
  {
    CenterBounce(ph, dx);
    assert Crossing(b, Ball(x, 5.0, dx, 0.0), BOARD_WIDTH) == 5.0;
  }

  lemma MiddleFlight(ph: Physics, b: Ball)
    requires Lawful(ph) && b.dx != 0.0 && b.y == 5.0 && b.dy == 0.0 && OnBoard(b)
    ensures MovesOn(b, Fly(ph, b, 5.0, 5.0))
  {
    var x := b.x + b.dx;
    assert Reflect(b) == Ball(x, 5.0, b.dx, 0.0);
    MiddleLeft(ph, b, x, b.dx);
    if x > 0.0 {
      MiddleRight(ph, b, x, b.dx, 0);
    } else {
      MiddleRight(ph, b, -x, -BALL_SPEEDUP_MULTIPLIER * b.dx, 1);
    }
  }

  lemma StepInFlight(ph: Physics, g: Game, f: Flight, v: Serve)
    requires Midline(g) && f == Fly(ph, g.ball, 5.0, 5.0) && f.InPlay?
    ensures Handle(ph, Running(g), Ticks(v, v))
         == Running(g.(time := g.time + 1, ball := f.ball, hits := g.hits + f.hits))
  {
  }

  const SERVED := Ball(10.0, 5.0, 0.02, 0.0)

  lemma FirstFlight(ph: Physics)
    ensures Fly(ph, SERVED, 5.0, 5.0) == InPlay(Ball(10.02, 5.0, 0.02, 0.0), 0)
  {
  }

  lemma ServeInFlight(ph: Physics, g: Game, v: Serve)
    requires g.num == 0 && Ready(g) && NewGame(g, v).ball == SERVED
    ensures var w := Handle(ph, Running(g), Ticks(v, v));
      w.Running? && Midline(w.game) && w.game.ball == Ball(10.02, 5.0, 0.02, 0.0)
  {
    FirstFlight(ph);
  }

  lemma StraightServe(g: Game) returns (v: Serve)
    ensures NewGame(g, v).ball == SERVED
  {
    v := (1.0, 0.0);
  }

  // How far the ball is from the side it flies to.
  function ToGo(b: Ball): real {
    if b.dx < 0.0 then b.x else BOARD_WIDTH - b.x
  }

  // The ball comes to a side at least every 1000 steps, every hit makes it faster by 0.001 or more,
  // and faster than 60 it leaves the board.
  lemma {:induction false} LeavesFrom(ph: Physics, events: seq<Event>, hits: nat, ticks: nat, v: Serve)
    returns (whole: seq<Event>)
    requires Lawful(ph) && After(ph, events).Running?
    requires var g := After(ph, events).game;
      && Midline(g) && OnBoard(g.ball) && Abs(g.ball.dx) >= 0.02
      && 61.0 - Abs(g.ball.dx) <= 0.001 * hits as real && ToGo(g.ball) <= 0.02 * ticks as real
    ensures var w := After(ph, whole); w.Running? && w.game.num > 0 && !OnBoard(w.game.ball)
    decreases hits, ticks
  {
    var g := After(ph, events).game;
    var f := Fly(ph, g.ball, 5.0, 5.0);
    MiddleFlight(ph, g.ball);
    StepInFlight(ph, g, f, v);
    AfterSnoc(ph, events, Ticks(v, v));
    whole := events + [Ticks(v, v)];
    if OnBoard(f.ball) {
      if 0.0 < g.ball.x + g.ball.dx <= BOARD_WIDTH {
        whole := LeavesFrom(ph, whole, hits, ticks - 1, v);
      } else {
        whole := LeavesFrom(ph, whole, hits - 1, 1000, v);
      }
    }
  }

  // Two players who never move see the ball leave the board.
  lemma BallCanLeave(ph: Physics) returns (events: seq<Event>)
    requires Lawful(ph)
    ensures var w := After(ph, events); w.Running? && w.game.num > 0 && !OnBoard(w.game.ball)
  {
    OneJoins(ph);
    AfterSnoc(ph, [Joins], Joins);
    events := [Joins] + [Joins];
    var v := StraightServe(After(ph, events).game);
    ServeInFlight(ph, After(ph, events).game, v);
    AfterSnoc(ph, events, Ticks(v, v));
    events := LeavesFrom(ph, events + [Ticks(v, v)], 61000, 1000, v);
  }

  // ---------- the program ----------

  datatype GameState = GameState(ballX: real, ballY: real, y1: real, y2: real, score1: nat, score2: nat, time: nat,
                                 num: nat)

  class Table {
    const ph: Physics
    var state: GameState
    var ballDx: real
    var ballDy: real
    var player1: Option<Hand>
    var player2: Option<Hand>
    ghost var hits: nat

    ghost function View(): Game
      reads this
    {
      var s := state;
      Game(s.num, s.score1, s.score2, Ball(s.ballX, s.ballY, ballDx, ballDy), s.y1, s.y2, s.time,
           player1, player2, hits)
    }

    constructor (ph: Physics)
      ensures this.ph == ph && View() == NEW
    {
      this.ph := ph;
      state := GameState(0.0, 0.0, 0.0, 0.0, 0, 0, 0, 0);
      ballDx, ballDy, hits := 0.0, 0.0, 0;
      player1, player2 := None, None;
    }

    // register_new_paddle: `false` for the panic.
    method RegisterNewPaddle() returns (ok: bool)
      modifies this`player1, this`player2
      ensures ok <==> Register(old(View())).Running?
      ensures View() == if ok then Register(old(View())).game else old(View())
      ensures ok <==> old(player1).None? || old(player2).None?
      ensures player1 == if old(player1).None? then Some(Stop) else old(player1)
      ensures player2 == if old(player1).Some? && old(player2).None? then Some(Stop) else old(player2)
    {
      ok := true;
      if player1.None? {
        player1 := Some(Stop);
      } else if player2.None? {
        player2 := Some(Stop);
      } else {
        ok := false;
      }
    }

    static method CalcPaddleMovement(pos: real, hand: Hand) returns (ok: bool, newPos: real)
      ensures ok == MovePaddle(pos, hand).Some?
      ensures newPos == if ok then MovePaddle(pos, hand).value else pos
      ensures ok ==> OnRail(newPos) && (OnRail(pos) ==> Abs(newPos - pos) <= PADDLE_SPEED)
    {
      var delta := 0.0;
      match hand {
        case Up => delta := PADDLE_SPEED * -1.0;
        case Down => delta := PADDLE_SPEED;
        case Stop => delta := 0.0;
        case Disconnected => return false, pos;
      }
      newPos := pos + delta;
      if newPos < PADDLE_SIZE / 2.0 {
        newPos := PADDLE_SIZE / 2.0;
      }
      if newPos > BOARD_HEIGHT - PADDLE_SIZE / 2.0 {
        newPos := BOARD_HEIGHT - PADDLE_SIZE / 2.0;
      }
      ok := true;
    }

    // new_game, with the direction its random loop ends on.
    method StartNewGame(v: Serve)
      modifies this
      ensures View() == NewGame(old(View()), v)
    {
      if player1.Some? {
        player1 := Some(Stop);
      }
      if player2.Some? {
        player2 := Some(Stop);
      }
      ballDx, ballDy := v.0 * TIME_SCALE_FACTOR, v.1 * TIME_SCALE_FACTOR;
      state := state.(ballX := BOARD_WIDTH / 2.0, ballY := BOARD_HEIGHT / 2.0, num := state.num + 1,
                      y1 := BOARD_HEIGHT / 2.0, y2 := BOARD_HEIGHT / 2.0, time := 0);
      hits := 0;
    }

    method LeaveGame(v: Serve)
      modifies this
      ensures View() == Abandon(old(View()), v)
    {
      StartNewGame(v);
      state := state.(num := 0, score1 := 0, score2 := 0);
    }

    // calc_paddle_bounce: `false` for the panic. A ball the paddle reaches comes back 1.05 times as
    // fast.
    method CalcPaddleBounce(dx: real, dy: real, y: real, paddleY: real) returns (ok: bool, newDx: real, newDy: real)
      ensures ok == Bounce(ph, dx, dy, y, paddleY).Some?
      ensures ok ==> (newDx, newDy) == Bounce(ph, dx, dy, y, paddleY).value
      ensures Lawful(ph) && dx != 0.0 && !Misses(y, paddleY) ==>
        && ok && (dx < 0.0 <==> newDx > 0.0) && newDx != 0.0
        && Square(newDx) + Square(newDy) == 1.1025 * (Square(dx) + Square(dy))
    {
      var signum := if dx < 0.0 then -1.0 else 1.0;
      var speed := ph.norm(dx, dy) * BALL_SPEEDUP_MULTIPLIER;
      var angle := (y - paddleY) / (PADDLE_SIZE / 2.0);
      newDx := -signum * speed * ph.cos(angle);
      newDy := speed * ph.sin(angle);
      assert newDx == Across(ph, dx, dy, angle) && newDy == Along(ph, dx, dy, angle);
      ok := !(dx * newDx >= 0.0);
      if Lawful(ph) && dx != 0.0 && !Misses(y, paddleY) {
        BounceLaw(ph, dx, dy, y, paddleY);
      }
    }

    // step: `false` for a panic.
    method TakeStep(first: Serve, second: Serve) returns (ok: bool)
      requires state.num > 0 ==> ballDx != 0.0
      modifies this
      ensures ok == Step(ph, old(View()), first, second).Running?
      ensures ok ==> View() == Step(ph, old(View()), first, second).game
    {
      if player1.Some? && player2.Some? && state.num == 0 {
        StartNewGame(first);
      } else if player1.None? || player2.None? {
        return true;
      }
      state := state.(time := state.time + 1);
      ok := PlayOn(second);
    }

    // The part of step after a possible first serve.
    method PlayOn(v: Serve) returns (ok: bool)
      requires Ready(View()) && ballDx != 0.0
      modifies this
      ensures ok == Play(ph, old(View()), v).Running?
      ensures ok ==> View() == Play(ph, old(View()), v).game
    {
      var here, y := CalcPaddleMovement(state.y1, player1.value);
      state := state.(y1 := y);
      if !here {
        player1 := None;
        LeaveGame(v);
        return true;
      }
      here, y := CalcPaddleMovement(state.y2, player2.value);
      state := state.(y2 := y);
      if !here {
        player2 := None;
        LeaveGame(v);
        return true;
      }
      var f := MoveBall();
      match f {
        case Panic => return false;
        case Missed1 =>
          state := state.(score2 := state.score2 + 1);
          StartNewGame(v);
        case Missed2 =>
          state := state.(score1 := state.score1 + 1);
          StartNewGame(v);
        case InPlay(b, n) =>
          state := state.(ballX := b.x, ballY := b.y);
          ballDx, ballDy, hits := b.dx, b.dy, hits + n;
      }
      ok := true;
    }

    // The ball's part of step, up to the point where its outcome is known.
    method MoveBall() returns (f: Flight)
      requires ballDx != 0.0
      ensures f == Fly(ph, Ball(state.ballX, state.ballY, ballDx, ballDy), state.y1, state.y2)
    {
      var b := Ball(state.ballX, state.ballY, ballDx, ballDy);
      var newX, newY, dy := state.ballX + ballDx, state.ballY + ballDy, ballDy;
      if newY <= 0.0 || newY > BOARD_HEIGHT {
        dy := -dy;
        if newY <= 0.0 {
          newY := Abs(newY);
        } else {
          newY := 2.0 * BOARD_HEIGHT - newY;
        }
      }
      f := InPlay(Ball(newX, newY, ballDx, dy), 0);
      if newX <= 0.0 {
        f := AtLeftEdge(b, f.ball);
      }
      if f.InPlay? && f.ball.x > BOARD_WIDTH {
        f := AtRightEdge(b, f.ball, f.hits);
      }
    }

    method AtLeftEdge(b: Ball, r: Ball) returns (f: Flight)
      requires r.x <= 0.0 && r.dx != 0.0
      ensures f == LeftEdge(ph, r, Crossing(b, r, 0.0), state.y1)
    {
      var newY := b.y - b.x * r.dy / r.dx;
      CrossingAtZero(b, r);
      if newY > state.y1 + PADDLE_SIZE / 2.0 || newY < state.y1 - PADDLE_SIZE / 2.0 {
        return Missed1;
      }
      var ok, dx, dy := CalcPaddleBounce(r.dx, r.dy, newY, state.y1);
      if !ok || dx < 0.0 {
        return Panic;
      }
      f := InPlay(Ball(Abs(r.x), newY, dx, dy), 1);
    }

    method AtRightEdge(b: Ball, r: Ball, n: nat) returns (f: Flight)
      requires r.x > BOARD_WIDTH && r.dx != 0.0
      ensures f == RightEdge(ph, r, n, Crossing(b, r, BOARD_WIDTH), state.y2)
    {
      var newY := b.y + (BOARD_WIDTH - b.x) * r.dy / r.dx;
      assert newY == Crossing(b, r, BOARD_WIDTH);
      if newY > state.y2 + PADDLE_SIZE / 2.0 || newY < state.y2 - PADDLE_SIZE / 2.0 {
        return Missed2;
      }
      var ok, dx, dy := CalcPaddleBounce(r.dx, r.dy, newY, state.y2);
      if !ok || dx > 0.0 {
        return Panic;
      }
      f := InPlay(Ball(2.0 * BOARD_WIDTH - r.x, newY, dx, dy), n + 1);
    }
  }

  lemma CrossingAtZero(b: Ball, r: Ball)
    requires r.dx != 0.0
    ensures Crossing(b, r, 0.0) == b.y - b.x * r.dy / r.dx
  {
  }
}
