/**
 * Random fleet placement. Each attempt draws an orientation and a top-left
 * anchor from the random stream; the ship goes on the first drawn run that
 * CanPlaceShipAt accepts, within an attempt budget of size * size * 10.
 */
module Placement {
  import opened Types
  import opened Random
  import opened BoardEngine

  datatype PlacementError = PlacementExhausted(shipId: string, size: int)

  function MaxAttempts(b: Board): (m: int)
    ensures m >= 0
  {
    var n := b.size;
    assert n * n == (-n) * (-n);
    n * n * 10
  }

  /** What one attempt does: stop because the drawn orientation leaves no room, or try a run. */
  datatype Attempt = Broke | Tried(coords: seq<Coord>)

  /**
   * The attempt drawn from the stream at `at`: the orientation from draw `at`
   * (horizontal when below one half) and, when the ship fits that way at all,
   * the anchor column and row from draws `at + 1` and `at + 2`.
   */
  function AttemptAt(b: Board, length: int, rng: nat -> Random01, at: nat): Attempt
  {
    var horizontal := BelowHalf(rng(at));
    var maxX := if horizontal then b.size - length else b.size - 1;
    var maxY := if horizontal then b.size - 1 else b.size - length;
    if maxX < 0 || maxY < 0 then Broke
    else Tried(Run(Anchor(rng, at, maxX, maxY), length, horizontal))
  }

  /** The top-left cell: column from draw `at + 1` over 0..maxX, row from draw `at + 2` over 0..maxY. */
  function Anchor(rng: nat -> Random01, at: nat, maxX: nat, maxY: nat): Coord
  {
    Coord(Scale(rng(at + 1), maxX + 1), Scale(rng(at + 2), maxY + 1))
  }

  lemma AttemptIsRun(b: Board, length: int, rng: nat -> Random01, at: nat)
    requires Attempts(b, length, rng)(at).Tried?
    ensures IsRun(Attempts(b, length, rng)(at).coords, length)
  {
    var horizontal := BelowHalf(rng(at));
    var maxX := if horizontal then b.size - length else b.size - 1;
    var maxY := if horizontal then b.size - 1 else b.size - length;
    var start := Anchor(rng, at, maxX, maxY);
    assert AttemptAt(b, length, rng, at).coords == Run(start, length, horizontal);
  }

  /** The cells form one straight run of `length` cells. */
  ghost predicate IsRun(cs: seq<Coord>, length: int)
  {
    exists start: Coord, horizontal: bool :: cs == Run(start, length, horizontal)
  }

  /** The attempts drawn from the stream, indexed by the stream position each one starts at. */
  function Attempts(b: Board, length: int, rng: nat -> Random01): (tries: nat -> Attempt)
    ensures forall at :: tries(at) == AttemptAt(b, length, rng, at)
  {
    (at: nat) => AttemptAt(b, length, rng, at)
  }

  /**
   * The run chosen by the attempts from stream position `at` with `left`
   * attempts still allowed (None when they are used up or an orientation
   * leaves no room), paired with the first stream position not read.
   */
  function Choose(b: Board, tries: nat -> Attempt, at: nat, left: nat): (r: (Option<seq<Coord>>, nat))
    requires WellFormed(b)
    ensures at <= r.1 <= at + 3 * left
    ensures r.0.Some? ==> at + 3 <= r.1 && CanPlaceShipAt(b, r.0.value)
    decreases left
  {
    if left == 0 then (None, at)
    else match tries(at)
      case Broke => (None, at + 1)
      case Tried(cs) =>
        if CanPlaceShipAt(b, cs) then (Some(cs), at + 3)
        else Choose(b, tries, at + 3, left - 1)
  }

  /** placeShipRandomly as a function of the board, the ship and the stream. */
  function PlaceRandomly(b: Board, ship: Ship, rng: nat -> Random01, pos: nat): (r: (Result<Board, PlacementError>, nat))
    requires WellFormed(b)
    ensures r.0.Ok? ==> WellFormed(r.0.value) && r.0.value.size == b.size
  {
    var (chosen, next) := Choose(b, Attempts(b, ship.length, rng), pos, MaxAttempts(b));
    if chosen.Some? then (Ok(Placed(b, ship, chosen.value)), next)
    else (Err(PlacementExhausted(ship.id, b.size)), next)
  }

  /** The coordinates of a straight run, built one cell at a time. */
  method BuildRun(start: Coord, length: int, horizontal: bool) returns (coords: seq<Coord>)
    ensures coords == Run(start, length, horizontal)
  {
    coords := [];
    var i := 0;
    while i < length
      invariant 0 <= i <= Dim(length)
      invariant coords == Run(start, i, horizontal)
    {
      coords := coords + [if horizontal then Coord(start.x + i, start.y) else Coord(start.x, start.y + i)];
      i := i + 1;
    }
  }

  /** An attempt whose orientation leaves room tries the run from the drawn anchor. */
  lemma AttemptTried(b: Board, length: int, rng: nat -> Random01, at: nat, horizontal: bool, maxX: nat, maxY: nat, start: Coord)
    requires horizontal == BelowHalf(rng(at))
    requires maxX == if horizontal then b.size - length else b.size - 1
    requires maxY == if horizontal then b.size - 1 else b.size - length
    requires start == Anchor(rng, at, maxX, maxY)
    ensures AttemptAt(b, length, rng, at) == Tried(Run(start, length, horizontal))
  {
  }

  /** A rejected attempt passes the choice on to the next three stream positions and one fewer attempt. */
  lemma ChooseRejected(b: Board, tries: nat -> Attempt, at: nat, left: nat, next: nat, rest: nat)
    requires WellFormed(b) && left == rest + 1 && next == at + 3
    requires tries(at).Tried? && !CanPlaceShipAt(b, tries(at).coords)
    ensures Choose(b, tries, at, left) == Choose(b, tries, next, rest)
  {
  }

  /**
   * One attempt of placeShipRandomly's loop: draw the orientation, give up
   * (Broke) when the ship cannot lie that way at all, else draw the anchor
   * and build the run.
   */
  method DrawAttempt(b: Board, length: int, rng: nat -> Random01, at: nat) returns (a: Attempt)
    ensures a == AttemptAt(b, length, rng, at)
  {
    var horizontal := BelowHalf(rng(at));
    var maxX := if horizontal then b.size - length else b.size - 1;
    var maxY := if horizontal then b.size - 1 else b.size - length;
    if maxX < 0 || maxY < 0 {
      return Broke;
    }
    var start := Anchor(rng, at, maxX, maxY);
    var coords := BuildRun(start, length, horizontal);
    AttemptTried(b, length, rng, at, horizontal, maxX, maxY, start);
    a := Tried(coords);
  }

  /**
   * Tries at most MaxAttempts(b) draws, reading three stream positions per
   * attempt (one when the orientation leaves no room); `next` is the first
   * unread position.
   */
  method PlaceShipRandomly(b: Board, ship: Ship, rng: nat -> Random01, pos: nat)
    returns (r: Result<Board, PlacementError>, next: nat)
    requires WellFormed(b)
    ensures (r, next) == PlaceRandomly(b, ship, rng, pos)
  {
    var attempts := 0;
    next := pos;
    var maxAttempts := MaxAttempts(b);
    ghost var tries := Attempts(b, ship.length, rng);
    ghost var spec := Choose(b, tries, pos, maxAttempts);
    ghost var left: nat := maxAttempts;
    while attempts < maxAttempts
      invariant attempts <= maxAttempts && left == maxAttempts - attempts
      invariant spec == Choose(b, tries, next, left)
    {
      attempts := attempts + 1;
      var a := DrawAttempt(b, ship.length, rng, next);
      assert a == tries(next);
      if a.Broke? {
        r, next := Err(PlacementExhausted(ship.id, b.size)), next + 1;
        return;
      }
      if CanPlaceShipAt(b, a.coords) {
        var placed := PlaceShipAt(b, ship, a.coords);
        r, next := Ok(placed), next + 3;
        return;
      }
      ghost var at, was := next, left;
      next, left := next + 3, left - 1;
      ChooseRejected(b, tries, at, was, next, left);
    }
    r := Err(PlacementExhausted(ship.id, b.size));
  }

  /**
   * A successful placement puts the ship on a straight run of free cells
   * inside the board, appended to the ship list; a failure names the ship.
   */
  lemma PlaceRandomlyProperties(b: Board, ship: Ship, rng: nat -> Random01, pos: nat)
    requires WellFormed(b)
    ensures var (r, next) := PlaceRandomly(b, ship, rng, pos);
      (r.Err? ==> r.error == PlacementExhausted(ship.id, b.size)) &&
      (r.Ok? ==> exists cs :: IsRun(cs, ship.length) && CanPlaceShipAt(b, cs) && r.value == Placed(b, ship, cs)) &&
      pos <= next <= pos + 3 * MaxAttempts(b)
  {
    var tries := Attempts(b, ship.length, rng);
    AttemptsAreRuns(b, ship.length, rng);
    ChosenIsRun(b, tries, ship.length, pos, MaxAttempts(b));
  }

  /** Every attempt the stream offers is a straight run of the ship's length. */
  lemma AttemptsAreRuns(b: Board, length: int, rng: nat -> Random01)
    ensures forall k :: Attempts(b, length, rng)(k).Tried? ==> IsRun(Attempts(b, length, rng)(k).coords, length)
  {
    forall k | Attempts(b, length, rng)(k).Tried?
      ensures IsRun(Attempts(b, length, rng)(k).coords, length)
    {
      AttemptIsRun(b, length, rng, k);
    }
  }

  /** When every attempt is a straight run, so is the chosen one. */
  lemma ChosenIsRun(b: Board, tries: nat -> Attempt, length: int, at: nat, left: nat)
    requires WellFormed(b)
    requires forall k :: tries(k).Tried? ==> IsRun(tries(k).coords, length)
    ensures var r := Choose(b, tries, at, left);
      r.0.Some? ==> IsRun(r.0.value, length)
  {
    ChosenAttempt(b, tries, at, left);
  }

  /** The chosen run is the one tried by the last attempt read. */
  lemma {:induction false} ChosenAttempt(b: Board, tries: nat -> Attempt, at: nat, left: nat)
    requires WellFormed(b)
    ensures var r := Choose(b, tries, at, left);
      r.0.Some? ==> tries(r.1 - 3) == Tried(r.0.value)
    decreases left
  {
    if left > 0 && tries(at).Tried? && !CanPlaceShipAt(b, tries(at).coords) {
      ChooseRejected(b, tries, at, left, at + 3, left - 1);
      ChosenAttempt(b, tries, at + 3, left - 1);
    }
  }

  /** A ship longer than a non-empty board fails on the first draw, whatever it is. */
  lemma TooLongFailsAtOnce(b: Board, ship: Ship, rng: nat -> Random01, pos: nat)
    requires WellFormed(b) && 0 < b.size < ship.length
    ensures PlaceRandomly(b, ship, rng, pos) == (Err(PlacementExhausted(ship.id, b.size)), pos + 1)
  {
    assert MaxAttempts(b) > 0 by {
      assert b.size * b.size >= 1 by { MulPos(b.size, b.size); }
    }
  }

  lemma MulPos(a: int, c: int)
    requires a > 0 && c > 0
    ensures a * c > 0
  {
  }

  /** An empty board has no attempt budget at all. */
  lemma EmptyBoardFails(b: Board, ship: Ship, rng: nat -> Random01, pos: nat)
    requires WellFormed(b) && b.size == 0
    ensures PlaceRandomly(b, ship, rng, pos) == (Err(PlacementExhausted(ship.id, 0)), pos)
  {
  }

  /**
   * `r` is `b` with the fleet's ships appended in order, each unchanged but
   * for its coordinates, which form a straight run of its length.
   */
  ghost predicate Extends(b: Board, fleet: seq<Ship>, r: Board)
  {
    WellFormed(r) && r.size == b.size &&
    |r.ships| == |b.ships| + |fleet| && r.ships[..|b.ships|] == b.ships &&
    forall i :: 0 <= i < |fleet| ==>
      PlacedAs(r.ships[|b.ships| + i], fleet[i]) && IsRun(r.ships[|b.ships| + i].coordinates, fleet[i].length)
  }

  /** placeFleetRandomly: places the fleet in list order, threading the stream; the first failure ends it. */
  function PlaceFleet(b: Board, fleet: seq<Ship>, rng: nat -> Random01, pos: nat): (r: (Result<Board, PlacementError>, nat))
    requires WellFormed(b)
    ensures r.0.Ok? ==>
      Extends(b, fleet, r.0.value)
    decreases |fleet|
  {
    if fleet == [] then (Ok(b), pos)
    else
      var first := PlaceRandomly(b, fleet[0], rng, pos);
      if first.0.Err? then first
      else
        var rest := PlaceFleet(first.0.value, fleet[1..], rng, first.1);
        PlaceFleetStep(b, fleet, first.0.value, rest.0, rng, pos);
        rest
  }

  method PlaceFleetRandomly(b: Board, fleet: seq<Ship>, rng: nat -> Random01, pos: nat)
    returns (r: Result<Board, PlacementError>, next: nat)
    requires WellFormed(b)
    ensures (r, next) == PlaceFleet(b, fleet, rng, pos)
  {
    var acc := b;
    next := pos;
    var k := 0;
    while k < |fleet|
      invariant 0 <= k <= |fleet|
      invariant WellFormed(acc)
      invariant PlaceFleet(b, fleet, rng, pos) == PlaceFleet(acc, fleet[k..], rng, next)
    {
      var step;
      ghost var at := next;
      step, next := PlaceShipRandomly(acc, fleet[k], rng, next);
      assert fleet[k..][0] == fleet[k] && fleet[k..][1..] == fleet[k + 1..];
      assert PlaceFleet(acc, fleet[k..], rng, at) ==
             if step.Err? then (step, next) else PlaceFleet(step.value, fleet[k + 1..], rng, next);
      if step.Err? {
        r := step;
        return;
      }
      acc := step.value;
      k := k + 1;
    }
    r := Ok(acc);
  }

  /** `s` is the ship `t` with its coordinates filled in: every other field agrees. */
  predicate PlacedAs(s: Ship, t: Ship)
  {
    s.id == t.id && s.name == t.name && s.length == t.length && s.hits == t.hits
  }

  /** One successful placement appends the ship, on a straight run, and keeps the board consistent. */
  lemma PlacedOne(b: Board, ship: Ship, rng: nat -> Random01, pos: nat)
    requires WellFormed(b) && PlaceRandomly(b, ship, rng, pos).0.Ok?
    ensures var m := PlaceRandomly(b, ship, rng, pos).0.value;
      WellFormed(m) && m.size == b.size &&
      |m.ships| == |b.ships| + 1 && m.ships[..|b.ships|] == b.ships &&
      PlacedAs(m.ships[|b.ships|], ship) && IsRun(m.ships[|b.ships|].coordinates, ship.length) &&
      (ShipsOnGrid(b) ==> ShipsOnGrid(m))
  {
    PlaceRandomlyProperties(b, ship, rng, pos);
    var m := PlaceRandomly(b, ship, rng, pos).0.value;
    var cs :| IsRun(cs, ship.length) && CanPlaceShipAt(b, cs) && m == Placed(b, ship, cs);
    assert m.ships == b.ships + [ship.(coordinates := cs)];
    assert m.ships[..|b.ships|] == b.ships;
    if ShipsOnGrid(b) {
      PlacedKeepsShipsOnGrid(b, ship, cs);
    }
  }

  lemma PlaceFleetStep(b: Board, fleet: seq<Ship>, mid: Board, rest: Result<Board, PlacementError>, rng: nat -> Random01, pos: nat)
    requires WellFormed(b) && fleet != [] && PlaceRandomly(b, fleet[0], rng, pos).0 == Ok(mid)
    requires rest.Ok? ==>
      Extends(mid, fleet[1..], rest.value)
    ensures rest.Ok? ==>
      Extends(b, fleet, rest.value)
  {
    PlacedOne(b, fleet[0], rng, pos);
    if rest.Ok? {
      ExtendsAfterOne(b, fleet, mid, rest.value);
    }
  }

  /** A board one placement past `b` that the rest of the fleet extends, extends `b` by the whole fleet. */
  lemma ExtendsAfterOne(b: Board, fleet: seq<Ship>, mid: Board, r: Board)
    requires fleet != [] && mid.size == b.size
    requires |mid.ships| == |b.ships| + 1 && mid.ships[..|b.ships|] == b.ships
    requires PlacedAs(mid.ships[|b.ships|], fleet[0]) && IsRun(mid.ships[|b.ships|].coordinates, fleet[0].length)
    requires Extends(mid, fleet[1..], r)
    ensures Extends(b, fleet, r)
  {
    var ships := r.ships;
    assert ships[..|b.ships|] == ships[..|mid.ships|][..|b.ships|];
    forall i | 0 <= i < |fleet|
      ensures PlacedAs(ships[|b.ships| + i], fleet[i]) && IsRun(ships[|b.ships| + i].coordinates, fleet[i].length)
    {
      if i == 0 {
        assert ships[|b.ships|] == ships[..|mid.ships|][|b.ships|];
      } else {
        assert fleet[1..][i - 1] == fleet[i];
        assert |b.ships| + i == |mid.ships| + (i - 1);
      }
    }
  }

  /** Placing a fleet on a consistent board leaves every ship on its own, on-grid cells. */
  lemma {:induction false} PlaceFleetOnGrid(b: Board, fleet: seq<Ship>, rng: nat -> Random01, pos: nat)
    requires ShipsOnGrid(b)
    ensures var r := PlaceFleet(b, fleet, rng, pos).0;
      r.Ok? ==> ShipsOnGrid(r.value)
    decreases |fleet|
  {
    if fleet != [] {
      var (step, next) := PlaceRandomly(b, fleet[0], rng, pos);
      if step.Ok? {
        PlacedOne(b, fleet[0], rng, pos);
        PlaceFleetOnGrid(step.value, fleet[1..], rng, next);
        assert PlaceFleet(b, fleet, rng, pos).0 == PlaceFleet(step.value, fleet[1..], rng, next).0;
      }
    }
  }

  /** A failed fleet placement names the first ship that found no room. */
  lemma {:induction false} PlaceFleetFailure(b: Board, fleet: seq<Ship>, rng: nat -> Random01, pos: nat)
    requires WellFormed(b)
    ensures var r := PlaceFleet(b, fleet, rng, pos).0;
      r.Err? ==> exists i :: 0 <= i < |fleet| && r.error == PlacementExhausted(fleet[i].id, b.size)
    decreases |fleet|
  {
    if fleet != [] {
      var (step, next) := PlaceRandomly(b, fleet[0], rng, pos);
      if step.Ok? {
        PlacedOne(b, fleet[0], rng, pos);
        var mid := step.value;
        PlaceFleetFailure(mid, fleet[1..], rng, next);
        var r := PlaceFleet(mid, fleet[1..], rng, next).0;
        assert PlaceFleet(b, fleet, rng, pos).0 == r;
        if r.Err? {
          var i :| 0 <= i < |fleet[1..]| && r.error == PlacementExhausted(fleet[1..][i].id, mid.size);
          assert fleet[1..][i] == fleet[i + 1];
        }
      }
    }
  }

  /** The ships of a successful placement, from a consistent board, never share a cell. */
  lemma PlacedFleetDisjoint(b: Board, fleet: seq<Ship>, rng: nat -> Random01, pos: nat)
    requires ShipsOnGrid(b)
    ensures var (r, _) := PlaceFleet(b, fleet, rng, pos);
      r.Ok? ==> ShipsDisjoint(r.value)
  {
    PlaceFleetOnGrid(b, fleet, rng, pos);
  }
}
