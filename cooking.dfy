/** Model of the Cooking Master sequencer (games/cooking-master.js): a recipe is a
    sequence of steps with a current-step pointer, ingredients are accepted only in
    recipe order, a cooking timeout per placed ingredient marks the current step
    cooked, a finished recipe can be served for points, and a countdown ends the game.

    Timeouts are explicit state: `pending` maps the handle of every cooking timeout
    that is scheduled and has neither fired nor been cancelled to its ingredient,
    and `cookingTimers` is the source's map from ingredient to the handle stored
    for it. Setting a key again overwrites the stored handle without cancelling the
    earlier timeout, so clearing the map cancels only the timeouts whose handles it
    still holds; the others stay in `pending` and still fire. */
module Cooking {

  datatype Ingredient = Carrot | Potato | Onion | Tomato | Mushroom | Pepper

  /** A catalog recipe: its ingredients in cooking order and its base points. */
  datatype Dish = Dish(ingredients: seq<Ingredient>, points: nat)

  function Catalog(): seq<Dish>
  {
    [ Dish([Carrot, Onion, Pepper], 100),     // Vegetable Stir Fry
      Dish([Tomato, Onion, Carrot], 80),      // Garden Salad
      Dish([Mushroom, Onion, Pepper], 120),   // Mushroom Medley
      Dish([Potato, Carrot, Onion], 150) ]    // Root Vegetables
  }

  const FallbackPoints: nat := 50
  const StartTime: int := 60
  const LevelScore: int := 500   // level L is left once the score reaches L * 500
  const LevelBonusTime: int := 30

  /** serveDish's level-up test. */
  predicate LevelReached(score: int, level: int)
  {
    score >= level * LevelScore
  }

  datatype RecipeStep = RecipeStep(ingredient: Ingredient, cooked: bool, cooking: bool)

  datatype GameState = Waiting | Playing | Paused | Finished

  /** generateRecipe's `map`: one untouched step per ingredient of `dish`. */
  function FreshRecipe(dish: Dish): (r: seq<RecipeStep>)
    ensures |r| == |dish.ingredients|
    ensures forall k :: 0 <= k < |r| ==> r[k].ingredient == dish.ingredients[k] && !r[k].cooked && !r[k].cooking
  {
    seq(|dish.ingredients|, k requires 0 <= k < |dish.ingredients| =>
      RecipeStep(dish.ingredients[k], false, false))
  }

  /** `every(ing => pan.includes(ing))`: each ingredient of `need` is somewhere in the pan. */
  predicate AllIn(need: seq<Ingredient>, pan: seq<Ingredient>)
  {
    forall k :: 0 <= k < |need| ==> need[k] in pan
  }

  /** serveDish's `find(...)?.points || 50`, searching the catalog from entry `k` on:
      the points of the first recipe whose ingredients are all in the pan, else 50. */
  function FirstMatchPoints(pan: seq<Ingredient>, k: nat): (r: nat)
    requires k <= |Catalog()|
    ensures FallbackPoints <= r <= 150
    ensures pan == [] ==> r == FallbackPoints
    ensures (forall i :: k <= i < |Catalog()| ==> !AllIn(Catalog()[i].ingredients, pan)) ==> r == FallbackPoints
    ensures forall i ::
      (k <= i < |Catalog()| && AllIn(Catalog()[i].ingredients, pan)
        && (forall j :: k <= j < i ==> !AllIn(Catalog()[j].ingredients, pan)))
      ==> r == Catalog()[i].points
    decreases |Catalog()| - k
  {
    if k == |Catalog()| then FallbackPoints
    else if AllIn(Catalog()[k].ingredients, pan) then
      assert Catalog()[k].ingredients[0] in pan;
      Catalog()[k].points
    else FirstMatchPoints(pan, k + 1)
  }

  /** The points a serve adds: recipe points plus floor(timeLeft * 2). */
  function ServePoints(pan: seq<Ingredient>, timeLeft: int): (r: int)
    ensures FallbackPoints + 2 * timeLeft <= r <= 150 + 2 * timeLeft
    ensures pan == [] ==> r == FallbackPoints + 2 * timeLeft
  {
    FirstMatchPoints(pan, 0) + 2 * timeLeft
  }

  /** A pan holding exactly one catalog recipe's ingredients earns that recipe's
      points: no earlier recipe is contained in it. */
  lemma DishScoresItsOwnPoints(i: nat)
    requires i < |Catalog()|
    ensures FirstMatchPoints(Catalog()[i].ingredients, 0) == Catalog()[i].points
  {
    var c := Catalog();
    var pan := c[i].ingredients;
    assert AllIn(c[i].ingredients, pan) by {
      assert forall k :: 0 <= k < |pan| ==> pan[k] in pan;
    }
    if i >= 1 { assert c[0].ingredients[0] !in pan || c[0].ingredients[2] !in pan; }
    if i >= 2 { assert c[1].ingredients[0] !in pan; }
    if i >= 3 { assert c[2].ingredients[0] !in pan; }
  }

  /** The kitchen: the fields the source's game object updates in place. */
  class Kitchen {
    var gameState: GameState
    var score: int
    var level: int
    var timeLeft: int
    var currentRecipe: seq<RecipeStep>
    var currentStep: int
    var panIngredients: seq<Ingredient>
    var cookingTimers: map<Ingredient, nat>   // the source's map: ingredient -> timeout handle
    var pending: map<nat, Ingredient>         // timeouts scheduled and neither fired nor cancelled
    var nextHandle: nat                       // the handle the next setTimeout returns
    var highScore: int                        // the stored best score

    /** The pointer stays within the recipe, exactly the steps before it are cooked,
        no step after it has started cooking, every handle was issued already, and
        score and level never fall below their start values. */
    ghost predicate Consistent()
      reads this
    {
      && 0 <= currentStep <= |currentRecipe|
      && (forall i :: 0 <= i < |currentRecipe| ==> (currentRecipe[i].cooked <==> i < currentStep))
      && (forall i :: currentStep < i < |currentRecipe| ==> !currentRecipe[i].cooking)
      && (forall h :: h in pending ==> h < nextHandle)
      && (forall k :: k in cookingTimers ==> cookingTimers[k] < nextHandle)
      && score >= 0 && level >= 1 && timeLeft >= 0
    }

    /** Consistent, and the countdown is positive while a game is running. */
    ghost predicate Valid()
      reads this
    {
      Consistent() && (gameState in {Playing, Paused} ==> timeLeft > 0)
    }

    /** The constructor and init(): waiting, with a first recipe drawn. */
    constructor (pick: nat, storedHighScore: int)
      requires pick < |Catalog()|
      ensures Valid()
      ensures gameState == Waiting && score == 0 && level == 1 && timeLeft == StartTime
      ensures currentRecipe == FreshRecipe(Catalog()[pick]) && currentStep == 0
      ensures panIngredients == [] && cookingTimers == map[] && pending == map[]
      ensures highScore == storedHighScore
    {
      gameState := Waiting;
      score := 0;
      level := 1;
      timeLeft := StartTime;
      currentRecipe := FreshRecipe(Catalog()[pick]);
      currentStep := 0;
      panIngredients := [];
      cookingTimers := map[];
      pending := map[];
      nextHandle := 1;
      highScore := storedHighScore;
    }

    /** generateRecipe, with the random draw given as `pick`. */
    method GenerateRecipe(pick: nat)
      requires pick < |Catalog()|
      modifies this`currentRecipe, this`currentStep
      ensures currentRecipe == FreshRecipe(Catalog()[pick]) && currentStep == 0
    {
      currentRecipe := FreshRecipe(Catalog()[pick]);
      currentStep := 0;
    }

    /** startGame: only from waiting. */
    method StartGame()
      requires Valid()
      modifies this`gameState, this`timeLeft
      ensures Valid()
      ensures old(gameState) == Waiting ==> gameState == Playing && timeLeft == StartTime
      ensures old(gameState) != Waiting ==> unchanged(this)
    {
      if gameState == Waiting {
        gameState := Playing;
        timeLeft := StartTime;
      }
    }

    /** pauseGame: stops the countdown only; cooking timeouts keep running. */
    method PauseGame()
      requires Valid()
      modifies this`gameState
      ensures Valid()
      ensures gameState == if old(gameState) == Playing then Paused else old(gameState)
    {
      if gameState == Playing {
        gameState := Paused;
      }
    }

    /** resumeGame. */
    method ResumeGame()
      requires Valid()
      modifies this`gameState
      ensures Valid()
      ensures gameState == if old(gameState) == Paused then Playing else old(gameState)
    {
      if gameState == Paused {
        gameState := Playing;
      }
    }

    /** The `forEach(clearTimeout)` and `clear()` of cookingTimers: the timeouts whose
        handles the map holds are cancelled; a handle overwritten earlier is not. */
    method ClearCookingTimers()
      modifies this`pending, this`cookingTimers
      ensures cookingTimers == map[]
      ensures pending == old(pending) - old(cookingTimers).Values
    {
      pending := pending - cookingTimers.Values;
      cookingTimers := map[];
    }

    /** clearPan. */
    method ClearPan()
      modifies this`panIngredients, this`pending, this`cookingTimers
      ensures panIngredients == [] && cookingTimers == map[]
      ensures pending == old(pending) - old(cookingTimers).Values
    {
      panIngredients := [];
      ClearCookingTimers();
    }

    /** endGame (its state part): finished, the tracked timeouts cancelled, the best
        score kept. */
    method EndGame()
      requires Consistent()
      modifies this`gameState, this`pending, this`cookingTimers, this`highScore
      ensures Valid()
      ensures gameState == Finished && cookingTimers == map[]
      ensures pending == old(pending) - old(cookingTimers).Values
      ensures highScore == if score > old(highScore) then score else old(highScore)
    {
      gameState := Finished;
      ClearCookingTimers();
      if score > highScore {
        highScore := score;
      }
    }

    /** One second of the countdown interval, which runs only while playing. */
    method CountdownTick()
      requires Valid() && gameState == Playing
      modifies this`timeLeft, this`gameState, this`pending, this`cookingTimers, this`highScore
      ensures Valid()
      ensures timeLeft == old(timeLeft) - 1
      ensures timeLeft > 0 ==> unchanged(this`gameState, this`pending, this`cookingTimers, this`highScore)
      ensures timeLeft <= 0 ==>
        && gameState == Finished && cookingTimers == map[]
        && pending == old(pending) - old(cookingTimers).Values
        && highScore == if score > old(highScore) then score else old(highScore)
    {
      timeLeft := timeLeft - 1;
      if timeLeft <= 0 {
        EndGame();
      }
    }

    /** addIngredientToPan: only the ingredient of the current step is accepted; it
        goes into the pan, its step starts cooking and a timeout is scheduled under a
        new handle, which replaces the map entry for that ingredient. The pointer does
        not move until a timeout fires. */
    method AddIngredientToPan(ing: Ingredient)
      requires Valid()
      modifies this`panIngredients, this`pending, this`cookingTimers, this`nextHandle, this`currentRecipe
      ensures Valid()
      ensures old(currentStep) >= |old(currentRecipe)| ==> unchanged(this)
      ensures old(currentStep) < |old(currentRecipe)| && ing != old(currentRecipe)[currentStep].ingredient
        ==> unchanged(this)
      ensures old(currentStep) < |old(currentRecipe)| && ing == old(currentRecipe)[currentStep].ingredient ==>
        && panIngredients == old(panIngredients) + [ing]
        && nextHandle == old(nextHandle) + 1
        && pending == old(pending)[old(nextHandle) := ing]
        && cookingTimers == old(cookingTimers)[ing := old(nextHandle)]
        && currentRecipe == old(currentRecipe)[currentStep := old(currentRecipe)[currentStep].(cooking := true)]
    {
      if currentStep >= |currentRecipe| {
        return;
      }
      var current := currentRecipe[currentStep].ingredient;
      if ing != current {
        return;
      }
      panIngredients := panIngredients + [ing];
      var handle := nextHandle;
      nextHandle := nextHandle + 1;
      pending := pending[handle := ing];
      cookingTimers := cookingTimers[ing := handle];
      currentRecipe := currentRecipe[currentStep := currentRecipe[currentStep].(cooking := true)];
    }

    /** finishCookingIngredient: whichever ingredient finished, the current step is
        marked cooked and the pointer moves on by one. */
    method FinishCookingIngredient(ing: Ingredient)
      requires Valid() && currentStep < |currentRecipe|
      modifies this`currentRecipe, this`currentStep, this`cookingTimers
      ensures Valid()
      ensures currentRecipe == old(currentRecipe)[old(currentStep) := old(currentRecipe)[old(currentStep)].(cooked := true)]
      ensures currentStep == old(currentStep) + 1
      ensures cookingTimers == old(cookingTimers) - {ing}
    {
      currentRecipe := currentRecipe[currentStep := currentRecipe[currentStep].(cooked := true)];
      currentStep := currentStep + 1;
      cookingTimers := cookingTimers - {ing};
    }

    /** The cooking timeout with handle `h` fires. It runs in any game state. When
        the pointer is already past the recipe the callback fails on its first line
        (`currentRecipe[currentStep]` is undefined) and changes nothing else; its
        handle stays in the map. */
    method FireCookingTimer(h: nat)
      requires Valid() && h in pending
      modifies this`pending, this`currentRecipe, this`currentStep, this`cookingTimers
      ensures Valid()
      ensures pending == old(pending) - {h}
      ensures old(currentStep) < |old(currentRecipe)| ==>
        && currentRecipe == old(currentRecipe)[old(currentStep) := old(currentRecipe)[old(currentStep)].(cooked := true)]
        && currentStep == old(currentStep) + 1
        && cookingTimers == old(cookingTimers) - {old(pending)[h]}
      ensures old(currentStep) >= |old(currentRecipe)| ==>
        unchanged(this`currentRecipe, this`currentStep, this`cookingTimers)
    {
      var ing := pending[h];
      pending := pending - {h};
      if currentStep < |currentRecipe| {
        FinishCookingIngredient(ing);
      }
    }

    /** serveDish: refused until every step is cooked; otherwise scores the pan,
        empties it, checks for one level-up and draws the next recipe (`pick`). */
    method ServeDish(pick: nat)
      requires Valid() && pick < |Catalog()|
      modifies this`score, this`level, this`timeLeft, this`panIngredients, this`pending,
        this`cookingTimers, this`currentRecipe, this`currentStep
      ensures Valid()
      ensures old(currentStep) < |old(currentRecipe)| ==> unchanged(this)
      ensures old(currentStep) >= |old(currentRecipe)| ==>
        var s := old(score) + ServePoints(old(panIngredients), old(timeLeft));
        var up := LevelReached(s, old(level));
        && score == s
        && level == (if up then old(level) + 1 else old(level))
        && timeLeft == (if up then old(timeLeft) + LevelBonusTime else old(timeLeft))
        && panIngredients == [] && cookingTimers == map[]
        && pending == old(pending) - old(cookingTimers).Values
        && currentRecipe == FreshRecipe(Catalog()[pick]) && currentStep == 0
    {
      if currentStep < |currentRecipe| {
        return;
      }
      var recipePoints := FirstMatchPoints(panIngredients, 0);
      var timeBonus := 2 * timeLeft;
      var totalPoints := recipePoints + timeBonus;
      score := score + totalPoints;
      ghost var remaining := pending - cookingTimers.Values;
      assert forall h :: h in remaining ==> h < nextHandle;
      ClearPan();
      assert pending == remaining;
      LevelUpCheck();
      GenerateRecipe(pick);
    }

    /** serveDish's level-up check: one level and 30 seconds when the score has
        reached the current level's threshold. */
    method LevelUpCheck()
      requires Valid()
      modifies this`level, this`timeLeft
      ensures Valid()
      ensures level == if LevelReached(score, old(level)) then old(level) + 1 else old(level)
      ensures timeLeft == if LevelReached(score, old(level)) then old(timeLeft) + LevelBonusTime else old(timeLeft)
    {
      if LevelReached(score, level) {
        level := level + 1;
        timeLeft := timeLeft + LevelBonusTime;
      }
    }

    /** An ingredient click or number key: handled only while playing. */
    method IngredientInput(ing: Ingredient)
      requires Valid()
      modifies this`panIngredients, this`pending, this`cookingTimers, this`nextHandle, this`currentRecipe
      ensures Valid()
      ensures gameState != Playing ==> unchanged(this)
      ensures gameState == Playing ==>
        (panIngredients == old(panIngredients) + [ing] <==>
          old(currentStep) < |old(currentRecipe)| && ing == old(currentRecipe)[currentStep].ingredient)
    {
      if gameState == Playing {
        AddIngredientToPan(ing);
      }
    }

    /** A click on the pan serves only while playing and with something in the pan;
        the space key (`requirePan` false) serves while playing even with an empty pan. */
    method ServeInput(requirePan: bool, pick: nat)
      requires Valid() && pick < |Catalog()|
      modifies this`score, this`level, this`timeLeft, this`panIngredients, this`pending,
        this`cookingTimers, this`currentRecipe, this`currentStep
      ensures Valid()
      ensures gameState != Playing || (requirePan && old(panIngredients) == []) ==> unchanged(this)
    {
      if gameState == Playing && (!requirePan || |panIngredients| > 0) {
        ServeDish(pick);
      }
    }

    /** resetGame: back to waiting with the start values and a new recipe. */
    method ResetGame(pick: nat)
      requires Valid() && pick < |Catalog()|
      modifies this`gameState, this`score, this`level, this`timeLeft, this`panIngredients,
        this`pending, this`cookingTimers, this`currentRecipe, this`currentStep
      ensures Valid()
      ensures gameState == Waiting && score == 0 && level == 1 && timeLeft == StartTime
      ensures panIngredients == [] && cookingTimers == map[]
      ensures pending == old(pending) - old(cookingTimers).Values
      ensures currentRecipe == FreshRecipe(Catalog()[pick]) && currentStep == 0
    {
      gameState := Waiting;
      score := 0;
      level := 1;
      timeLeft := StartTime;
      currentStep := 0;
      panIngredients := [];
      ClearCookingTimers();
      ghost var cleared := pending;
      assert cookingTimers.Values == {};
      ClearPan();
      assert pending == cleared;
      GenerateRecipe(pick);
    }
  }

  /** Placing the current step's ingredient twice before it finishes schedules two
      timeouts; both fire and the pointer moves on twice, so the second step is
      marked cooked without its ingredient ever being placed. */
  method DoublePlacement(k: Kitchen)
    requires k.Valid() && |k.currentRecipe| >= 2 && k.currentStep == 0
    modifies k
    ensures k.Valid() && k.currentStep == 2
    ensures k.currentRecipe[1].cooked && !k.currentRecipe[1].cooking
  {
    var first := k.currentRecipe[0].ingredient;
    var h1 := k.nextHandle;
    k.AddIngredientToPan(first);
    var h2 := k.nextHandle;
    k.AddIngredientToPan(first);
    k.FireCookingTimer(h1);
    k.FireCookingTimer(h2);
  }

  /** When the same ingredient is placed twice, the first handle is overwritten in
      the map, so resetGame (like clearPan) cancels only the second timeout. The
      first one still fires afterwards and cooks step 0 of the new recipe while the
      game is waiting and the pan is empty. */
  method LeakedTimeout(k: Kitchen, pick: nat)
    requires k.Valid() && |k.currentRecipe| >= 1 && k.currentStep == 0 && pick < |Catalog()|
    modifies k
    ensures k.Valid() && k.gameState == Waiting && k.panIngredients == []
    ensures k.currentStep == 1 && k.currentRecipe[0].cooked
    ensures k.currentRecipe[0].ingredient == Catalog()[pick].ingredients[0]
  {
    var first := k.currentRecipe[0].ingredient;
    var h1 := k.nextHandle;
    k.AddIngredientToPan(first);
    k.AddIngredientToPan(first);
    assert k.cookingTimers[first] == h1 + 1;
    assert h1 !in k.cookingTimers.Values;
    k.ResetGame(pick);
    k.FireCookingTimer(h1);
  }
}
