# Games site: verified model of the three game engines and the site effects

This project models the state machines of the site's three browser games, plus
three small pieces of state in the site script. Each is a Dafny class whose
fields are the fields the JavaScript object updates in place. Each event
handler or timer callback is one method. Its postcondition gives the whole new
state, and its frame (`modifies this`f`) lists the only fields it may change.
Pure functions model the lookups and loops, and lemmas prove the properties
the game rules promise.

- `snake.dfy`, module `Snake`, models `games/snake-master.js`. It covers:
  - direction input, including the reversal guard;
  - one step of the game loop: wall and self collision, sliding and growing;
  - the food retry loop and the speed schedule;
  - the waiting / playing / paused / game-over lifecycle.
- `cooking.dfy`, module `Cooking`, models `games/cooking-master.js`. It covers:
  - the recipe steps and the current-step pointer;
  - the in-order acceptance of ingredients;
  - cooking timeouts, held as explicit handle maps;
  - serving, scoring and the level-up;
  - the countdown.
- `shop.dfy`, module `Shop`, models `games/shop-master.js`. It covers:
  - money, the inventory and the queue of at most five customers;
  - serving from the head and the three interval bodies (arrivals, patience decay, time of day);
  - night robberies, purchases and upgrades;
  - the day's end.
- `site.dfy`, module `SiteEffects`, models three parts of `script.js`:
  - the Konami-code key window;
  - the bounded mouse trail;
  - the lie detector's re-entrancy guard and counter.

Randomness, clocks and ids are parameters of the methods:
- `Math.random` draws: food cells, recipe index, customer archetype, wanted product, whether a robbery fires, which item is stolen.
- `Date.now()` customer ids, which the caller supplies fresh.

The stored high score is a constructor argument. Each timer callback is a method that the caller invokes:
- the snake step `Update`;
- the cooking `CountdownTick` and `FireCookingTimer`;
- the shop `ArrivalTick`, `PatienceTick` and `TimeTick`;
- the lie detector's `DetectionDone`.

Where the code does something other than its own comments, function names and
on-screen messages suggest, the model follows the code. Examples are the comment
in `clearPan` that claims to cancel every remaining cooking timer, and the name
`getInitialInventory`. Each of these behaviours is stated and proved:

- Cooking: a finished timeout always marks the *current* step cooked and moves the
  pointer on, whichever ingredient it was started for. Placing the current
  ingredient twice before it finishes therefore advances the pointer twice
  (`Cooking.DoublePlacement`).
- Cooking: the timeout map is keyed by ingredient. A second placement of the same
  ingredient overwrites the stored handle without cancelling the first timeout. So
  clearing the pan or resetting the game leaves that timeout running. After a
  reset it marks step 0 of the new recipe cooked while the game is waiting and
  the pan is empty (`Cooking.LeakedTimeout`).
- Cooking: there is no mistake counter, combo or time penalty. Pausing stops only
  the countdown, not the cooking timeouts.
- Shop: `calculateDayProfit` is always 0, because `getInitialInventory` returns
  the current count. Ending a day never changes the money (`Shop.ShopGame.CalculateDayProfit`).
- Shop: `serveNextCustomer` never checks the head's budget. `serveCustomer` checks
  the clicked customer, but when the checks pass it serves the head of the queue.
  When they fail, the clicked customer leaves angry.
- Shop: the time-of-day interval keeps running while the game is paused, but
  the end of the day only takes effect while playing.
- Snake: `resetGame` zeroes the score but keeps the speed. So the speed schedule
  counts foods from the last time the score was 0, starting from whatever speed
  the game had then (`Snake.SpeedSchedule`).
- Snake: `startGame` from game over gives a fresh snake and food but keeps the
  score; only `resetGame` zeroes it. The reversal guard compares against the
  current direction, not against the last move. So two key presses between two
  steps can turn the snake straight back (`Snake.TwoPressesReverse`).

## Model

| member | source | states |
|---|---|---|
| Snake.Steer | games/snake-master.js:96-121 | a movement key sets its direction unless it is the exact reverse of the current one; no result is ever the reverse of a moving direction; any other key leaves the direction as it was; unit directions stay unit directions |
| Snake.TwoPressesReverse | games/snake-master.js:96-121 | pressing w then a while heading right yields heading left, the reverse of the original direction |
| Snake.StepOutcome | games/snake-master.js:200-237 | the snake stands still exactly when it has no direction; it hits the wall exactly when it moves and the new head is off the grid; it hits itself exactly when it moves, the new head is in the grid and it is on a later segment, the tail included; it grows exactly when it moves in the grid onto the food without hitting itself; a surviving move puts the new head first, in the grid, and is one cell longer when it grows and the same length when it slides |
| Snake.TailHitEndsGame | games/snake-master.js:219-227 | on a well-formed snake, moving in the grid onto the old tail cell ends the game as a self-hit |
| Snake.MoveKeepsShape | games/snake-master.js:200-237 | on a well-formed snake (at least three cells, in the grid, pairwise distinct, side by side), a step is idle only without a direction; it hits the wall exactly when the new head is off the grid, and hits itself exactly when the new head is in the grid and meets some segment after the head, including the tail that was about to move away; otherwise the result is well-formed again, one cell longer with the old body behind the food cell, or of the same length with the last cell dropped |
| Snake.HitsBody | games/snake-master.js:219-227 | the collision loop reports a hit exactly when the new head equals a segment at index 1 or more |
| Snake.SettledIndex | games/snake-master.js:254-266 | the retry loop stops at the first attempt off the snake, or at the 100th attempt; every earlier attempt was on the snake |
| Snake.FoodChoice | games/snake-master.js:254-266 | the food is the first candidate off the snake; a cell on the snake is chosen only when all 100 attempts landed on it; with in-grid draws the food is in the grid |
| Snake.PickFood | games/snake-master.js:254-266 | the do-while retry loop returns exactly FoodChoice |
| Snake.SpeedSchedule | games/snake-master.js:246-251 | from any reachable speed s (at least 80, a multiple of 10) and a score of 0, as at page load or after resetGame, which keeps the speed, the speed after k foods is max(80, s - 10 * (k / 5)): it steps down every fifth food and never drops below 80 |
| Snake.PageVisitSchedule | games/snake-master.js:246-251 | from page load with no reset (speed 150), the speed after k foods is max(80, 150 - 10 * (k / 5)) |
| Snake.SpeedAfterEat | games/snake-master.js:246-251 | the speed either stays or drops by exactly 10; it drops exactly when the new score is a multiple of 50 and the speed is above 80; a speed of at least 80 that is a multiple of 10 stays so |
| Snake.EveryFifthFood | games/snake-master.js:240-246 | with 10 points per food, the score after k foods is a multiple of 50 exactly when k is a multiple of 5 |
| Snake.LowerCase | games/snake-master.js:82-82 | lower-casing keeps the key's length, leaves no upper-case ASCII letter, maps each upper-case letter to its lower-case one (code + 32) and leaves every other character as it is |
| Snake.UpperMoveKeys | games/snake-master.js:82-82 | W, A, S and D lower-case to the movement keys w, a, s and d |
| Snake.SnakeGame.constructor | games/snake-master.js:5-37 | waiting, the three-cell snake at (10,10),(9,10),(8,10), no direction, food at (15,15), score 0, speed 150, and the stored high score |
| Snake.SnakeGame.HandleKeyPress | games/snake-master.js:96-121 | the new direction is Steer of the key and the old direction, and the invariant is kept |
| Snake.SnakeGame.ResetSnake | games/snake-master.js:183-191 | the initial snake and no direction; this establishes the shape invariant |
| Snake.SnakeGame.GenerateFood | games/snake-master.js:254-266 | the food becomes FoodChoice for the current snake, and it lies in the grid |
| Snake.SnakeGame.StartGame | games/snake-master.js:127-139 | from waiting or game over: playing, the initial snake, no direction, fresh food, and the score kept; from any other state nothing changes |
| Snake.SnakeGame.PauseGame | games/snake-master.js:141-151 | playing becomes paused; any other state is kept |
| Snake.SnakeGame.ResumeGame | games/snake-master.js:153-163 | paused becomes playing; any other state is kept |
| Snake.SnakeGame.ResetGame | games/snake-master.js:165-181 | waiting, score 0, the initial snake, no direction and fresh food; the high score and the speed are kept |
| Snake.SnakeGame.EndGame | games/snake-master.js:268-286 | game over, and the high score becomes the larger of itself and the score |
| Snake.SnakeGame.EatFood | games/snake-master.js:239-252 | the score grows by exactly 10, new food is chosen for the grown snake, and the speed drops by 10 only when the new score is a multiple of 50 and the speed is above 80 |
| Snake.SnakeGame.Update | games/snake-master.js:200-237 | nothing changes unless playing with a direction; a wall or self hit ends the game with snake, food, score and speed unchanged; otherwise the snake becomes the slid or grown body, with score and food changing only on growth; the shape invariant is kept |
| Snake.SnakeGame.KeyDown | games/snake-master.js:80-93 | while playing, only the direction changes, to Steer of the lower-cased key; otherwise only space acts. From waiting it starts: playing, the initial snake, no direction, food chosen for the initial snake, the score kept. From paused it resumes: playing, with snake, direction, food and score unchanged. From game over it resets: waiting, score 0, the initial snake, no direction and food chosen for the initial snake |
| Cooking.FreshRecipe | games/cooking-master.js:126-135 | one step per ingredient of the dish, in order, none cooked or cooking |
| Cooking.FirstMatchPoints | games/cooking-master.js:275-277 | the points of the first catalog recipe whose ingredients are all in the pan, or 50 when none is (always so for an empty pan); always between 50 and 150 |
| Cooking.ServePoints | games/cooking-master.js:275-280 | a serve adds recipe points plus twice the time left: between 50 and 150 more than twice the time left, and exactly 50 more for an empty pan |
| Cooking.DishScoresItsOwnPoints | games/cooking-master.js:25-46 | a pan holding exactly one catalog recipe's ingredients scores that recipe's own points |
| Cooking.Kitchen.constructor | games/cooking-master.js:5-14 | waiting, score 0, level 1, 60 seconds, a fresh recipe for the drawn dish at step 0, an empty pan and no timeouts |
| Cooking.Kitchen.GenerateRecipe | games/cooking-master.js:126-135 | the recipe becomes FreshRecipe of the drawn dish, and the pointer goes back to 0 |
| Cooking.Kitchen.StartGame | games/cooking-master.js:161-170 | from waiting: playing with 60 seconds; otherwise nothing changes |
| Cooking.Kitchen.PauseGame | games/cooking-master.js:172-180 | playing becomes paused; any other state is kept; the cooking timeouts are untouched |
| Cooking.Kitchen.ResumeGame | games/cooking-master.js:182-190 | paused becomes playing; any other state is kept |
| Cooking.Kitchen.CountdownTick | games/cooking-master.js:192-201 | one second less; at zero or below the game ends with the tracked timeouts cancelled and the high score raised; otherwise nothing else changes |
| Cooking.Kitchen.AddIngredientToPan | games/cooking-master.js:203-247 | past the last step, or with an ingredient other than the current step's, nothing changes; otherwise the pan grows by the ingredient, the step starts cooking, one timeout is scheduled under a new handle that replaces the map entry, and the pointer stays |
| Cooking.Kitchen.FinishCookingIngredient | games/cooking-master.js:249-266 | the current step is marked cooked, the pointer moves on by exactly one whichever ingredient finished, and that ingredient's map entry is deleted |
| Cooking.Kitchen.FireCookingTimer | games/cooking-master.js:236-238 | the fired timeout is no longer pending; before the end of the recipe it acts as FinishCookingIngredient for its ingredient, and past the end nothing else changes |
| Cooking.Kitchen.ClearCookingTimers | games/cooking-master.js:307-308 | the map is emptied and exactly the timeouts whose handles it held are cancelled |
| Cooking.Kitchen.ClearPan | games/cooking-master.js:301-312 | the pan and the map are emptied, and the timeouts the map held are cancelled |
| Cooking.Kitchen.EndGame | games/cooking-master.js:314-330 | finished, the tracked timeouts cancelled, and the high score the larger of itself and the score |
| Cooking.Kitchen.ServeDish | games/cooking-master.js:268-299 | with steps left nothing changes; otherwise the score grows by the first-match points plus twice the seconds left; the pan and the map are emptied; level and time go up by 1 and 30 at most once, when the new score reaches level * 500; and a fresh recipe starts at step 0 |
| Cooking.Kitchen.LevelUpCheck | games/cooking-master.js:290-294 | when the score has reached level * 500, the level goes up by exactly 1 and the time by 30; otherwise both are kept |
| Cooking.Kitchen.IngredientInput | games/cooking-master.js:92-116 | outside playing nothing changes; while playing, the pan grows by the ingredient exactly when it is the current step's |
| Cooking.Kitchen.ServeInput | games/cooking-master.js:100-122 | outside playing nothing changes, and a pan click with an empty pan changes nothing |
| Cooking.Kitchen.ResetGame | games/cooking-master.js:332-352 | waiting, score 0, level 1, 60 seconds, an empty pan, tracked timeouts cancelled, and a fresh recipe at step 0 |
| Cooking.DoublePlacement | games/cooking-master.js:249-251 | placing the first ingredient twice and letting both timeouts fire leaves the pointer at 2, with step 1 cooked though it never started cooking |
| Cooking.LeakedTimeout | games/cooking-master.js:236-240 | after two placements of the current ingredient and a resetGame, the first timeout still fires: the game is waiting and the pan is empty, yet step 0 of the new recipe is cooked and the pointer is at step 1 |
| Shop.Clamp | games/shop-master.js:530-530 | the result lies in [0, 100]; it equals the input inside that range, and is 0 below it and 100 above it |
| Shop.TimeOfDayAt | games/shop-master.js:413-423 | morning exactly up to 25, afternoon exactly in (25, 50], evening exactly in (50, 75], night exactly above 75 |
| Shop.PeriodsOnlyAdvance | games/shop-master.js:413-423 | as progress grows the period never goes back |
| Shop.DistinctIdsSnoc | games/shop-master.js:370-384 | appending a customer keeps ids distinct exactly when its id is new |
| Shop.RemoveId | games/shop-master.js:521-521 | the filtered queue is no longer than the queue, and when it is as long it is the queue itself (which customers stay is `Shop.RemoveIdMembers`) |
| Shop.RemoveIdMembers | games/shop-master.js:521-521 | exactly the customers without the id remain, and filtering an absent id changes nothing |
| Shop.RemoveIdKeepsDistinct | games/shop-master.js:521-521 | filtering by id keeps ids distinct |
| Shop.RemoveHead | games/shop-master.js:489-491 | with distinct ids, the head leaving leaves exactly the tail |
| Shop.Decay | games/shop-master.js:358-364 | a patience tick never lengthens the queue |
| Shop.DecayFrom | games/shop-master.js:358-364 | everyone queued after a tick was queued before with one more second of patience |
| Shop.DecayPatient | games/shop-master.js:358-364 | everyone queued after a tick has patience left |
| Shop.DecayKeeps | games/shop-master.js:358-364 | a customer with more than one second left stays, one second less patient |
| Shop.DecayDrops | games/shop-master.js:358-364 | with distinct ids, a customer with one second or less is gone after the tick |
| Shop.DecayKeepsDistinct | games/shop-master.js:358-364 | a tick keeps ids distinct |
| Shop.AngryFloor | games/shop-master.js:524-529 | repeated angry departures keep reputation in [0, 100] |
| Shop.AngryFloorClosedForm | games/shop-master.js:524-529 | n angry departures, clamped one by one, leave max(0, r - 3n) |
| Shop.InStock | games/shop-master.js:443-445 | a product is a candidate exactly when it is in the inventory with a positive count |
| Shop.Robbed | games/shop-master.js:437-458 | with security, or with nothing stocked, the inventory is unchanged; otherwise exactly one unit of one positively stocked product is gone; the keys are kept and no count goes negative |
| Shop.LineProfit | games/shop-master.js:590-591 | a product adds nothing when no unit was sold, and never a negative amount when units were sold, since every product sells above cost |
| Shop.DayProfit | games/shop-master.js:588-596 | the summed profit is 0 when every product has the same count in the initial and current inventory, and is not negative when no count has grown |
| Shop.ShopGame.GetInitialInventory | games/shop-master.js:598-601 | the day's "initial" count of a product is its current count, or 0 when it has no entry |
| Shop.NoProfitFromSameInventory | games/shop-master.js:588-601 | margin times units sold, summed against an "initial" inventory that is the current one, is 0 |
| Shop.ShopGame.constructor | games/shop-master.js:5-45 | waiting, $1000, day 1, reputation 50, morning at progress 0, an empty queue, one unit of every product, no upgrades and zero stats |
| Shop.ShopGame.StartDay | games/shop-master.js:273-289 | from waiting: playing, morning, progress 0; otherwise nothing changes |
| Shop.ShopGame.EndDay | games/shop-master.js:291-322 | only from playing: waiting, the queue emptied without moods, day + 1 and money unchanged (the day's profit is 0); otherwise nothing changes |
| Shop.ShopGame.PauseGame | games/shop-master.js:324-333 | playing becomes paused; any other state is kept |
| Shop.ShopGame.ResumeGame | games/shop-master.js:335-344 | paused becomes playing; any other state is kept |
| Shop.ShopGame.SpawnCustomer | games/shop-master.js:368-387 | the new customer, with the archetype's patience and budget and the wanted product, joins the end of the queue; the queue stays at most five with distinct ids |
| Shop.ShopGame.ArrivalTick | games/shop-master.js:349-353 | a customer is appended only while fewer than five are queued; otherwise the queue is unchanged |
| Shop.ShopGame.CustomerLeave | games/shop-master.js:515-532 | the customer is filtered out by id, its mood is counted, and reputation moves +2 or -3 and is clamped to [0, 100] |
| Shop.ShopGame.PatienceTick | games/shop-master.js:356-366 | the queue becomes its decay (order kept, each one second less patient, those at zero gone); each departure is counted angry, and reputation drops by 3 per departure but not below 0; the invariant is kept |
| Shop.ShopGame.DecayQueue | games/shop-master.js:358-364 | the forEach over the tick's starting queue yields Decay of it, with one angry count and one clamped reputation loss per departure |
| Shop.ShopGame.PatienceStep | games/shop-master.js:359-363 | one callback extends the decayed prefix by the next customer's survivor |
| Shop.ShopGame.ServeNextCustomer | games/shop-master.js:489-513 | an empty queue is left alone; a head wanting something out of stock leaves angry with money and stock unchanged; otherwise money grows by the sell price, that stock falls by 1 and the head leaves happy; the budget is not checked |
| Shop.ShopGame.ServeCustomer | games/shop-master.js:460-487 | an id not queued changes nothing; a clicked customer who wants nothing, or whose product is out of stock or over budget, leaves angry; otherwise the head is served |
| Shop.ShopGame.HandleRobbery | games/shop-master.js:437-458 | the inventory becomes Robbed of the old one, given the security upgrade and the draw |
| Shop.ShopGame.TimeTick | games/shop-master.js:408-435 | progress + 1 and the period follows it; a robbery can happen only at night; at 100 or more the day ends if playing; otherwise state, queue, money and day are unchanged |
| Shop.ShopGame.BuyProduct | games/shop-master.js:534-548 | with less money than the cost nothing changes; otherwise the cost is debited and the stock grows by 1, and money never goes negative |
| Shop.ShopGame.BuyUpgrade | games/shop-master.js:550-586 | short of money or already owned, nothing changes; otherwise the price is debited and the upgrade is added; upgrades are never lost |
| Shop.ShopGame.CalculateDayProfit | games/shop-master.js:588-601 | the loop sums margin times units sold over the catalog, which is always 0 |
| SiteEffects.Slide | script.js:420-424 | push then shift over the bound keeps the window at min(length + 1, bound) items, a suffix of the pushed buffer that ends with the new item |
| SiteEffects.LastN | script.js:420-424 | the last min(length, n) items of a history |
| SiteEffects.SlideKeepsLast | script.js:420-424 | sliding the window of a history over one more item gives the window of the longer history |
| SiteEffects.Join | script.js:426-426 | joining no codes gives the empty string; the joined string starts with the first code, followed by a comma when more codes follow |
| SiteEffects.SplitJoin | script.js:426-426 | splitting the comma-joined codes gives back the codes, when none contains a comma |
| SiteEffects.KonamiCommaFree | script.js:413-417 | the sequence has ten codes, none with a comma |
| SiteEffects.KonamiJoinMatch | script.js:426-426 | for comma-free codes, comparing the joined strings is exactly comparing the code sequences |
| SiteEffects.WindowMatch | script.js:420-426 | after pushing a comma-free code onto a comma-free window, the joined comparison is exactly element-wise equality with the sequence |
| SiteEffects.NeedsTenKeys | script.js:427-428 | fewer than ten keys after a reset can never match the sequence |
| SiteEffects.KonamiListener.constructor | script.js:412-412 | an empty window |
| SiteEffects.SlideCommaFree | script.js:420-424 | pushing a comma-free code onto comma-free codes and shifting keeps every code comma-free |
| SiteEffects.KonamiListener.Push | script.js:420-424 | the window becomes the old window slid over the code: pushed, and shifted once when longer than ten |
| SiteEffects.KonamiListener.KeyDown | script.js:419-430 | the window stays at most ten long and equals the last ten codes since the last reset; it fires exactly when the joined window equals the joined sequence, which for comma-free codes is exact equality; after firing the window is empty |
| SiteEffects.MouseTrail.constructor | script.js:586-587 | an empty trail |
| SiteEffects.MouseTrail.MouseMove | script.js:609-616 | the trail stays at most twenty long and is the last twenty dots; the oldest dot is removed exactly when the trail was full |
| SiteEffects.LieDetector.constructor | script.js:126-127 | not detecting, count 0 |
| SiteEffects.LieDetector.Click | script.js:247-256 | a click while detecting changes nothing; otherwise detection starts and the count grows by exactly 1 |
| SiteEffects.LieDetector.DetectionDone | script.js:290-294 | the reset timeout releases the guard |

## Left out

- Rendering, canvas drawing, DOM updates, messages, overlays, tabs, modals, the rewiring of button handlers, and audio: none of these changes game state.
- `games/games.js` and the rest of `script.js` (navigation, scrolling, particles, bursts, sound synthesis, `debounce`): presentation and browser APIs only.
- Real timers and their intervals (the snake speed in milliseconds, the cooking durations, the arrival rate of 2000 ms or 1500 ms with advertising, the 2 s clock, the detector delays): each callback is a method, and the caller decides when and in what order it runs. The speed is modelled as a value only.
- `Math.random`: each draw is a parameter. Candidate food cells are given as a sequence of in-grid cells, one per attempt; a recipe or archetype index is below the catalog size; the stolen item is `pick % count`; a fired robbery is a boolean.
- `getRandomProduct`'s weighted list: its multiplicities are floating-point products. Every product has a positive demand weight and preference, so the draw is never `null`. Spawned customers therefore always want a product, which the caller chooses.
- `Date.now()` ids: the caller supplies an id not already queued (`Absent`); two customers spawned in the same millisecond would share an id in the source.
- `localStorage`: the stored high score is a constructor argument and the saved value a plain field, compared as a number.
- Cooking.Kitchen.ServeInput: states only the playing and non-empty-pan guard; when the guard passes it calls `ServeDish`, whose contract gives the new state.
- Cooking.Kitchen.IngredientInput: while playing it states only whether the pan grows; the rest of the new state is the contract of `AddIngredientToPan`, which it calls.
- Cooking: the pending timeouts are a map from handle to ingredient rather than a multiset, so that cancelling a single handle can be stated.
- Shop: the Counter and Storage upgrades carry no state effect in the source (a message, and the number of slots drawn); they are modelled as owned flags only. The unread `servingCustomers` list and `gameSpeed` field are not modelled.
- Lie detector: the random response, needle and colour, and the display texts.
- Mouse trail: the dots are modelled as identifiers. The 500 ms timeout that removes a dot from the page does not touch the array and is not modelled.
- Snake.LowerCase: ASCII letters only, which covers every key the game reads.
