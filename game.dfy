/** The game area: the entity collections, game start and the per-frame tick
    (updateGameArea), with the tick specified on values and its properties proved. */
module GameLoop {
  import opened Kinematics
  import opened Stars
  import opened Players
  import opened Asteroids

  // ---------------------------------------------------------------------------
  // The tick on values

  /** Every draw of a batch is a value Math.random() can return. */
  predicate ValidRockDraws(draws: seq<RockDraw>)
  {
    forall i :: 0 <= i < |draws| ==> draws[i].Valid()
  }

  predicate ValidStarDraws(draws: seq<StarDraw>)
  {
    forall i :: 0 <= i < |draws| ==> draws[i].Valid()
  }

  /** The stars createStars builds, row by row. */
  function NewStars(draws: seq<StarDraw>, canvasWidth: nat): (r: seq<StarState>)
    requires ValidStarDraws(draws)
    ensures |r| == |draws|
    ensures forall i :: 0 <= i < |r| ==> r[i].y == i as real && r[i].speedX == STAR_SPEED
  {
    seq(|draws|, i requires 0 <= i < |draws| => NewStar(draws[i], i, canvasWidth))
  }

  /** The asteroids createAsteroids builds, one per draw. */
  function NewRocks(draws: seq<RockDraw>, canvasWidth: nat, canvasHeight: nat): (r: seq<Rock>)
    requires ValidRockDraws(draws)
    ensures |r| == |draws|
    ensures forall i :: 0 <= i < |r| ==> !Gone(r[i], canvasWidth, canvasHeight)
  {
    seq(|draws|, i requires 0 <= i < |draws| => NewRock(draws[i], canvasWidth, canvasHeight))
  }

  /** The forEach of star newPos: every star keeps its row and size, and on a canvas at
      least two pixels wide every star that kept the invariant still keeps it. */
  function StepStars(ss: seq<StarState>, canvasWidth: nat): (r: seq<StarState>)
    ensures |r| == |ss|
    ensures forall i :: 0 <= i < |r| ==>
              r[i].y == ss[i].y && r[i].width == ss[i].width && r[i].height == ss[i].height
    ensures canvasWidth >= 2 ==>
              forall i :: 0 <= i < |r| && StarInvariant(ss[i], canvasWidth) ==> StarInvariant(r[i], canvasWidth)
  {
    seq(|ss|, i requires 0 <= i < |ss| => StarStep(ss[i], canvasWidth))
  }

  /** The forEach of asteroid newPos: every asteroid keeps its size, tag and speed. */
  function StepRocks(rs: seq<Rock>): (r: seq<Rock>)
    ensures |r| == |rs|
    ensures forall i :: 0 <= i < |r| ==>
              r[i].width == rs[i].width && r[i].height == rs[i].height &&
              r[i].path == rs[i].path && r[i].speed == rs[i].speed
  {
    seq(|rs|, i requires 0 <= i < |rs| => Step(rs[i]))
  }

  /** The filter of updateGameArea: the asteroids that are not gone, in their order. */
  function Survivors(rs: seq<Rock>, canvasWidth: nat, canvasHeight: nat): (r: seq<Rock>)
    ensures |r| <= |rs|
  {
    if rs == [] then []
    else
      var init := Survivors(rs[..|rs| - 1], canvasWidth, canvasHeight);
      var last := rs[|rs| - 1];
      if Gone(last, canvasWidth, canvasHeight) then init else init + [last]
  }

  /** The filter keeps exactly the asteroids that are not gone. */
  lemma {:induction false} SurvivorsExact(rs: seq<Rock>, canvasWidth: nat, canvasHeight: nat, q: Rock)
    ensures q in Survivors(rs, canvasWidth, canvasHeight) <==> q in rs && !Gone(q, canvasWidth, canvasHeight)
  {
    if rs != [] {
      SurvivorsExact(rs[..|rs| - 1], canvasWidth, canvasHeight, q);
      assert rs == rs[..|rs| - 1] + [rs[|rs| - 1]];
    }
  }

  /** Filtering one more asteroid keeps it exactly when it is not gone. */
  lemma SurvivorsSnoc(rs: seq<Rock>, q: Rock, canvasWidth: nat, canvasHeight: nat)
    ensures Survivors(rs + [q], canvasWidth, canvasHeight) ==
            Survivors(rs, canvasWidth, canvasHeight) + (if Gone(q, canvasWidth, canvasHeight) then [] else [q])
  {
  }

  /** The filter keeps a batch in which nothing is gone as it is. */
  lemma {:induction false} SurvivorsKeepAll(rs: seq<Rock>, canvasWidth: nat, canvasHeight: nat)
    requires forall i :: 0 <= i < |rs| ==> !Gone(rs[i], canvasWidth, canvasHeight)
    ensures Survivors(rs, canvasWidth, canvasHeight) == rs
  {
    if rs != [] {
      SurvivorsKeepAll(rs[..|rs| - 1], canvasWidth, canvasHeight);
      assert rs == rs[..|rs| - 1] + [rs[|rs| - 1]];
    }
  }


  /** The population step: one new asteroid, not already gone, appended when fewer than
      ASTEROIDS_NO are left; the batch is otherwise kept as it is. */
  function Replenish(rs: seq<Rock>, draw: RockDraw, canvasWidth: nat, canvasHeight: nat): (r: seq<Rock>)
    requires draw.Valid()
    ensures |r| == (if |rs| < ASTEROIDS_NO then |rs| + 1 else |rs|)
    ensures r[..|rs|] == rs
    ensures |rs| < ASTEROIDS_NO ==> !Gone(r[|rs|], canvasWidth, canvasHeight)
  {
    if |rs| < ASTEROIDS_NO then rs + [NewRock(draw, canvasWidth, canvasHeight)] else rs
  }

  /** The asteroids after one tick: filter, replenish, move. A tick never empties the
      field, adds at most one asteroid, and keeps a population of at most ASTEROIDS_NO
      within that bound. */
  function TickRocks(rs: seq<Rock>, draw: RockDraw, canvasWidth: nat, canvasHeight: nat): (r: seq<Rock>)
    requires draw.Valid()
    ensures 1 <= |r| <= |rs| + 1
    ensures |rs| <= ASTEROIDS_NO ==> |r| <= ASTEROIDS_NO
  {
    StepRocks(Replenish(Survivors(rs, canvasWidth, canvasHeight), draw, canvasWidth, canvasHeight))
  }

  /** The first tick after start: no fresh asteroid is gone and the population is
      full, so every asteroid of a fresh batch just moves once. */
  lemma FirstTickMovesAll(draws: seq<RockDraw>, draw: RockDraw, canvasWidth: nat, canvasHeight: nat)
    requires |draws| == ASTEROIDS_NO && ValidRockDraws(draws) && draw.Valid()
    ensures TickRocks(NewRocks(draws, canvasWidth, canvasHeight), draw, canvasWidth, canvasHeight) ==
            StepRocks(NewRocks(draws, canvasWidth, canvasHeight))
  {
    SurvivorsKeepAll(NewRocks(draws, canvasWidth, canvasHeight), canvasWidth, canvasHeight);
  }

  /** A tick adds one asteroid exactly when fewer than ASTEROIDS_NO survived the
      filter, and so never takes the population above ASTEROIDS_NO. */
  lemma TickPopulation(rs: seq<Rock>, draw: RockDraw, canvasWidth: nat, canvasHeight: nat)
    requires draw.Valid()
    ensures var kept := Survivors(rs, canvasWidth, canvasHeight);
            var after := TickRocks(rs, draw, canvasWidth, canvasHeight);
            |after| == (if |kept| < ASTEROIDS_NO then |kept| + 1 else |kept|) &&
            (|rs| <= ASTEROIDS_NO ==> |after| <= ASTEROIDS_NO) &&
            |after| >= 1
  {
  }

  /** Each asteroid after a tick is a survivor or the new one, moved once: the i-th
      asteroid after the tick is the step of the i-th of the replenished batch. */
  lemma TickMovesEveryAsteroidOnce(rs: seq<Rock>, draw: RockDraw, canvasWidth: nat, canvasHeight: nat, i: int)
    requires draw.Valid()
    requires 0 <= i < |TickRocks(rs, draw, canvasWidth, canvasHeight)|
    ensures var kept := Survivors(rs, canvasWidth, canvasHeight);
            var after := TickRocks(rs, draw, canvasWidth, canvasHeight);
            (i < |kept| ==> after[i] == Step(kept[i])) &&
            (i == |kept| ==> |kept| < ASTEROIDS_NO && after[i] == Step(NewRock(draw, canvasWidth, canvasHeight)))
  {
  }

  /** How many asteroids of a batch collide with the player: how many times the
      collision forEach calls stop. */
  function HitCount(rs: seq<Rock>, player: Box): (n: nat)
    ensures n <= |rs|
  {
    if rs == [] then 0
    else
      var last := rs[|rs| - 1];
      HitCount(rs[..|rs| - 1], player) + (if Collides(last.Bounds(), player) then 1 else 0)
  }

  /** stop is called at least once exactly when some asteroid collides with the player. */
  lemma {:induction false} HitCountPositive(rs: seq<Rock>, player: Box)
    ensures HitCount(rs, player) > 0 <==> exists i :: 0 <= i < |rs| && Collides(rs[i].Bounds(), player)
  {
    if rs != [] {
      var init := rs[..|rs| - 1];
      HitCountPositive(init, player);
      assert forall i :: 0 <= i < |init| ==> init[i] == rs[i];
    }
  }

  /** Every colliding asteroid counts, not only the first. */
  lemma {:induction false} HitCountAll(rs: seq<Rock>, player: Box)
    requires forall i :: 0 <= i < |rs| ==> Collides(rs[i].Bounds(), player)
    ensures HitCount(rs, player) == |rs|
  {
    if rs != [] {
      HitCountAll(rs[..|rs| - 1], player);
    }
  }

  // ---------------------------------------------------------------------------
  // The game area as mutable state

  /** The globals of script.js: the canvas size, the three entity collections, and
      whether stop has ended the running game. The ghost fields are the abstract view:
      the state of every star and every asteroid, in collection order. */
  class Game {
    var canvasWidth: nat
    var canvasHeight: nat
    var stars: seq<Star>
    var asteroids: seq<Asteroid>
    var player: Player?
    var ended: bool
    ghost var starStates: seq<StarState>
    ghost var rocks: seq<Rock>

    /** No object occurs twice in a collection, so updating one entity leaves the
        others alone. */
    ghost predicate Distinct()
      reads this
    {
      (forall i, j :: 0 <= i < |stars| && 0 <= j < |stars| && i != j ==> stars[i] != stars[j]) &&
      (forall i, j :: 0 <= i < |asteroids| && 0 <= j < |asteroids| && i != j ==> asteroids[i] != asteroids[j])
    }

    /** The abstract view matches the objects. */
    ghost predicate Synced()
      reads this, stars, asteroids
    {
      |starStates| == |stars| &&
      (forall i :: 0 <= i < |stars| ==> stars[i].State() == starStates[i]) &&
      |rocks| == |asteroids| &&
      (forall i :: 0 <= i < |asteroids| ==> asteroids[i].State() == rocks[i])
    }

    ghost predicate Consistent()
      reads this, stars, asteroids
    {
      Distinct() && Synced()
    }

    /** Between ticks: consistent, and never more than ASTEROIDS_NO asteroids. */
    ghost predicate Valid()
      reads this, stars, asteroids
    {
      Consistent() && |asteroids| <= ASTEROIDS_NO
    }

    /** initGame: the canvas takes the window's size and gets its star field; there is
        no player and no asteroid yet. Its call of updateStars moves every star once
        before any frame is scheduled. */
    constructor (width: nat, height: nat, starDraws: seq<StarDraw>)
      requires |starDraws| == height && ValidStarDraws(starDraws)
      ensures Valid() && canvasWidth == width && canvasHeight == height
      ensures starStates == StepStars(NewStars(starDraws, width), width)
      ensures asteroids == [] && player == null && !ended
    {
      canvasWidth := width;
      canvasHeight := height;
      stars := [];
      asteroids := [];
      player := null;
      ended := false;
      starStates := [];
      rocks := [];
      new;
      CreateStars(starDraws);
      MoveStars();
    }

    /** createStars: one new star per canvas row, appended to the field. */
    method CreateStars(draws: seq<StarDraw>)
      requires Consistent() && |draws| == canvasHeight && ValidStarDraws(draws)
      modifies this`stars, this`starStates
      ensures Consistent()
      ensures starStates == old(starStates) + NewStars(draws, canvasWidth)
      ensures stars[..old(|stars|)] == old(stars)
      ensures forall i :: old(|stars|) <= i < |stars| ==> fresh(stars[i])
    {
      var n := |stars|;
      for i := 0 to canvasHeight
        invariant Consistent()
        invariant |stars| == n + i && stars[..n] == old(stars)
        invariant forall k :: n <= k < |stars| ==> fresh(stars[k])
        invariant starStates == old(starStates) + NewStars(draws[..i], canvasWidth)
      {
        var star := new Star(draws[i], i, canvasWidth);
        stars := stars + [star];
        starStates := starStates + [star.State()];
      }
      assert draws[..canvasHeight] == draws;
    }

    /** createAsteroid: one new asteroid appended to the collection. */
    method CreateAsteroid(draw: RockDraw)
      requires Consistent() && draw.Valid()
      modifies this`asteroids, this`rocks
      ensures Consistent()
      ensures rocks == old(rocks) + [NewRock(draw, canvasWidth, canvasHeight)]
      ensures asteroids[..old(|asteroids|)] == old(asteroids) && fresh(asteroids[|asteroids| - 1])
    {
      var asteroid := new Asteroid(draw, canvasWidth, canvasHeight);
      asteroids := asteroids + [asteroid];
      rocks := rocks + [asteroid.State()];
    }

    /** createAsteroids: ASTEROIDS_NO new asteroids appended to the collection. */
    method CreateAsteroids(draws: seq<RockDraw>)
      requires Consistent() && |draws| == ASTEROIDS_NO && ValidRockDraws(draws)
      modifies this`asteroids, this`rocks
      ensures Consistent()
      ensures rocks == old(rocks) + NewRocks(draws, canvasWidth, canvasHeight)
      ensures asteroids[..old(|asteroids|)] == old(asteroids)
      ensures forall i :: old(|asteroids|) <= i < |asteroids| ==> fresh(asteroids[i])
    {
      var n := |asteroids|;
      for i := 0 to ASTEROIDS_NO
        invariant Consistent()
        invariant |asteroids| == n + i && asteroids[..n] == old(asteroids)
        invariant forall k :: n <= k < |asteroids| ==> fresh(asteroids[k])
        invariant rocks == old(rocks) + NewRocks(draws[..i], canvasWidth, canvasHeight)
      {
        CreateAsteroid(draws[i]);
      }
      assert draws[..ASTEROIDS_NO] == draws;
    }

    /** createPlayer: a fresh player in the middle of the canvas. */
    method CreatePlayer()
      requires Valid()
      modifies this`player
      ensures Valid()
      ensures player != null && fresh(player)
      ensures player.Bounds() == Box(canvasWidth as real / 2.0, canvasHeight as real / 2.0, PLAYER_SIZE, PLAYER_SIZE)
    {
      player := new Player(canvasWidth, canvasHeight);
    }

    /** The forEach of star newPos (the idle animation runs the same loop). */
    method MoveStars()
      requires Consistent()
      modifies stars, this`starStates
      ensures Consistent()
      ensures starStates == StepStars(old(starStates), canvasWidth)
    {
      for i := 0 to |stars|
        invariant starStates == old(starStates)
        invariant forall k :: 0 <= k < i ==> stars[k].State() == StarStep(starStates[k], canvasWidth)
        invariant forall k :: i <= k < |stars| ==> stars[k].State() == starStates[k]
        invariant forall k :: 0 <= k < |asteroids| ==> asteroids[k].State() == rocks[k]
      {
        stars[i].NewPos(canvasWidth);
      }
      starStates := StepStars(starStates, canvasWidth);
    }

    /** The predicate of the filter in updateGameArea, applied to every asteroid: the
        asteroids that are not gone, in their order, each once. */
    method SurvivingAsteroids() returns (kept: seq<Asteroid>)
      requires Consistent()
      ensures |kept| == |Survivors(rocks, canvasWidth, canvasHeight)|
      ensures forall k :: 0 <= k < |kept| ==> kept[k].State() == Survivors(rocks, canvasWidth, canvasHeight)[k]
      ensures forall k :: 0 <= k < |kept| ==> kept[k] in asteroids
      ensures forall k, l :: 0 <= k < |kept| && 0 <= l < |kept| && k != l ==> kept[k] != kept[l]
    {
      kept := [];
      ghost var from: seq<nat> := [];
      for i := 0 to |asteroids|
        invariant |from| == |kept| && forall k :: 0 <= k < |kept| ==> from[k] < i && kept[k] == asteroids[from[k]]
        invariant forall k, l :: 0 <= k < l < |kept| ==> from[k] < from[l]
        invariant |kept| == |Survivors(rocks[..i], canvasWidth, canvasHeight)|
        invariant forall k :: 0 <= k < |kept| ==> kept[k].State() == Survivors(rocks[..i], canvasWidth, canvasHeight)[k]
      {
        assert rocks[..i + 1] == rocks[..i] + [rocks[i]];
        SurvivorsSnoc(rocks[..i], rocks[i], canvasWidth, canvasHeight);
        if !asteroids[i].IsAsteroidGone(canvasWidth, canvasHeight) {
          kept := kept + [asteroids[i]];
          from := from + [i];
        }
      }
      assert rocks[..|asteroids|] == rocks;
    }

    /** The filter of updateGameArea: the collection is replaced by its asteroids that
        are not gone. */
    method RemoveGone()
      requires Consistent()
      modifies this`asteroids, this`rocks
      ensures Consistent()
      ensures rocks == Survivors(old(rocks), canvasWidth, canvasHeight)
      ensures forall a :: a in asteroids ==> a in old(asteroids)
    {
      var kept := SurvivingAsteroids();
      asteroids, rocks := kept, Survivors(rocks, canvasWidth, canvasHeight);
    }

    /** The forEach of asteroid newPos. */
    method MoveAsteroids()
      requires Consistent()
      modifies asteroids, this`rocks
      ensures Consistent()
      ensures rocks == StepRocks(old(rocks))
    {
      for i := 0 to |asteroids|
        invariant rocks == old(rocks)
        invariant forall k :: 0 <= k < i ==> asteroids[k].State() == Step(rocks[k])
        invariant forall k :: i <= k < |asteroids| ==> asteroids[k].State() == rocks[k]
        invariant forall k :: 0 <= k < |stars| ==> stars[k].State() == starStates[k]
      {
        asteroids[i].NewPos();
      }
      rocks := StepRocks(rocks);
    }

    /** stop: ends the running game (the result screen, the sounds and the frame
        cancellation are outside the model). */
    method Stop()
      modifies this`ended
      ensures ended
    {
      ended := true;
    }

    /** The collision forEach: every asteroid that collides with the player calls stop. */
    method CheckCollisions() returns (hits: nat)
      requires Consistent() && player != null
      modifies this`ended
      ensures Consistent()
      ensures hits == HitCount(rocks, player.Bounds())
      ensures ended == (old(ended) || hits > 0)
    {
      hits := 0;
      for i := 0 to |asteroids|
        invariant hits == HitCount(rocks[..i], player.Bounds())
        invariant ended == (old(ended) || hits > 0)
      {
        assert rocks[..i + 1][..i] == rocks[..i];
        if asteroids[i].CheckCollision(player) {
          hits := hits + 1;
          Stop();
        }
      }
      assert rocks[..|asteroids|] == rocks;
    }

    /** The population step of updateGameArea: one asteroid is created when fewer than
        ASTEROIDS_NO are left. */
    method Spawn(draw: RockDraw)
      requires Consistent() && draw.Valid()
      modifies this`asteroids, this`rocks
      ensures Consistent()
      ensures rocks == Replenish(old(rocks), draw, canvasWidth, canvasHeight)
      ensures old(|asteroids|) <= ASTEROIDS_NO ==> |asteroids| <= ASTEROIDS_NO
      ensures forall k :: 0 <= k < |asteroids| ==> asteroids[k] in old(asteroids) || fresh(asteroids[k])
    {
      if |asteroids| < ASTEROIDS_NO {
        CreateAsteroid(draw);
      }
    }

    /** The asteroid phases of updateGameArea: gone asteroids are dropped, at most one
        asteroid is spawned, and every asteroid moves. */
    method UpdateAsteroids(draw: RockDraw)
      requires Valid() && draw.Valid()
      modifies this`asteroids, this`rocks, asteroids
      ensures Valid()
      ensures rocks == TickRocks(old(rocks), draw, canvasWidth, canvasHeight)
      ensures forall k :: 0 <= k < |asteroids| ==> asteroids[k] in old(asteroids) || fresh(asteroids[k])
    {
      RemoveGone();
      Spawn(draw);
      MoveAsteroids();
    }

    /** updateGameArea: stars move, then the asteroid phases, then each asteroid is
        checked against the player at its new position. Returns how many times stop
        was called. */
    method Tick(draw: RockDraw) returns (hits: nat)
      requires Valid() && player != null && draw.Valid()
      modifies this`starStates, this`asteroids, this`rocks, this`ended, stars, asteroids
      ensures Valid() && unchanged(player)
      ensures starStates == StepStars(old(starStates), canvasWidth)
      ensures rocks == TickRocks(old(rocks), draw, canvasWidth, canvasHeight)
      ensures hits == HitCount(rocks, player.Bounds())
      ensures ended == (old(ended) || hits > 0)
      ensures forall k :: 0 <= k < |asteroids| ==> asteroids[k] in old(asteroids) || fresh(asteroids[k])
    {
      MoveStars();
      UpdateAsteroids(draw);
      hits := CheckCollisions();
    }

    /** The star field of start: the collection is emptied and refilled by createStars. */
    method ResetStars(draws: seq<StarDraw>)
      requires Consistent() && |draws| == canvasHeight && ValidStarDraws(draws)
      modifies this`stars, this`starStates
      ensures Consistent()
      ensures |stars| == canvasHeight && starStates == NewStars(draws, canvasWidth)
      ensures forall i :: 0 <= i < |stars| ==> fresh(stars[i])
    {
      stars, starStates := [], [];
      CreateStars(draws);
    }

    /** The asteroids of start: the collection is emptied and refilled by
        createAsteroids. */
    method ResetAsteroids(draws: seq<RockDraw>)
      requires Consistent() && |draws| == ASTEROIDS_NO && ValidRockDraws(draws)
      modifies this`asteroids, this`rocks
      ensures Valid()
      ensures |asteroids| == ASTEROIDS_NO && rocks == NewRocks(draws, canvasWidth, canvasHeight)
      ensures forall i :: 0 <= i < |asteroids| ==> fresh(asteroids[i])
    {
      asteroids, rocks := [], [];
      CreateAsteroids(draws);
    }

    /** The component creation of start: the collections are emptied and refilled with
        a fresh star field, ASTEROIDS_NO fresh asteroids and a fresh player, and the
        game runs again. */
    method CreateComponents(starDraws: seq<StarDraw>, rockDraws: seq<RockDraw>)
      requires |starDraws| == canvasHeight && ValidStarDraws(starDraws)
      requires |rockDraws| == ASTEROIDS_NO && ValidRockDraws(rockDraws)
      modifies this`stars, this`starStates, this`asteroids, this`rocks, this`player, this`ended
      ensures Valid() && !ended
      ensures |stars| == canvasHeight && |asteroids| == ASTEROIDS_NO
      ensures starStates == NewStars(starDraws, canvasWidth)
      ensures rocks == NewRocks(rockDraws, canvasWidth, canvasHeight)
      ensures forall i :: 0 <= i < |stars| ==> fresh(stars[i])
      // Freshness of the asteroids in both forms: by index for the postcondition of
      // start, by membership for the frame of the tick that follows; the verifier
      // needs much less work with both at hand.
      ensures forall i :: 0 <= i < |asteroids| ==> fresh(asteroids[i])
      ensures forall a :: a in asteroids ==> fresh(a)
      ensures player != null && fresh(player)
      ensures player.Bounds() == Box(canvasWidth as real / 2.0, canvasHeight as real / 2.0, PLAYER_SIZE, PLAYER_SIZE)
    {
      ended, player := false, null;
      stars, starStates := [], [];
      asteroids, rocks := [], [];
      ResetStars(starDraws);
      ResetAsteroids(rockDraws);
      CreatePlayer();
    }

    /** The tick that start runs on a fresh batch of asteroids: nothing is dropped or
        added, every asteroid just moves once. */
    method FirstTick(ghost rockDraws: seq<RockDraw>, draw: RockDraw) returns (hits: nat)
      requires Valid() && player != null && draw.Valid()
      requires |rockDraws| == ASTEROIDS_NO && ValidRockDraws(rockDraws)
      requires rocks == NewRocks(rockDraws, canvasWidth, canvasHeight)
      modifies this`starStates, this`asteroids, this`rocks, this`ended, stars, asteroids
      ensures Valid() && unchanged(player)
      ensures starStates == StepStars(old(starStates), canvasWidth)
      // Follows from unchanged(player); stated so that start need not unfold Bounds.
      ensures player.Bounds() == old(player.Bounds())
      ensures rocks == StepRocks(NewRocks(rockDraws, canvasWidth, canvasHeight))
      ensures hits == HitCount(rocks, player.Bounds())
      ensures ended == (old(ended) || hits > 0)
      ensures forall k :: 0 <= k < |asteroids| ==> asteroids[k] in old(asteroids) || fresh(asteroids[k])
    {
      FirstTickMovesAll(rockDraws, draw, canvasWidth, canvasHeight);
      hits := Tick(draw);
    }

    /** start: fresh components, then the first tick. No fresh asteroid is gone, so the
        first tick neither drops nor adds one. */
    method Start(starDraws: seq<StarDraw>, rockDraws: seq<RockDraw>, draw: RockDraw) returns (hits: nat)
      requires |starDraws| == canvasHeight && ValidStarDraws(starDraws)
      requires |rockDraws| == ASTEROIDS_NO && ValidRockDraws(rockDraws) && draw.Valid()
      modifies this
      ensures canvasWidth == old(canvasWidth) && canvasHeight == old(canvasHeight)
      ensures Valid()
      ensures |stars| == canvasHeight && |asteroids| == ASTEROIDS_NO
      ensures starStates == StepStars(NewStars(starDraws, canvasWidth), canvasWidth)
      ensures rocks == StepRocks(NewRocks(rockDraws, canvasWidth, canvasHeight))
      ensures forall i :: 0 <= i < |stars| ==> fresh(stars[i])
      ensures forall i :: 0 <= i < |asteroids| ==> fresh(asteroids[i])
      ensures player != null && fresh(player)
      ensures player.Bounds() == Box(canvasWidth as real / 2.0, canvasHeight as real / 2.0, PLAYER_SIZE, PLAYER_SIZE)
      ensures hits == HitCount(rocks, player.Bounds())
      ensures ended == (hits > 0)
    {
      CreateComponents(starDraws, rockDraws);
      hits := FirstTick(rockDraws, draw);
    }

    /** checkKey: an arrow key moves the player; any other key is ignored. Before the
        first start there is no player, and an arrow key fails (a TypeError in the
        handler) without changing anything. */
    method CheckKey(keyCode: int) returns (failed: bool)
      modifies player
      ensures failed <==> player == null && KeyDirection(keyCode).Some?
      ensures player != null && KeyDirection(keyCode).Some? ==>
                player.Bounds() == Moved(old(player.Bounds()), KeyDirection(keyCode).value, canvasWidth, canvasHeight)
      ensures player != null && KeyDirection(keyCode).None? ==> player.Bounds() == old(player.Bounds())
    {
      failed := false;
      match KeyDirection(keyCode)
      case Some(direction) =>
        if player == null {
          failed := true;
        } else {
          player.Move(direction, canvasWidth, canvasHeight);
        }
      case None =>
    }
  }
}
