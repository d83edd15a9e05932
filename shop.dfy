/** Model of the Shop Master simulation (games/shop-master.js): integer money, an
    inventory per product, a queue of at most five customers served from its head,
    reputation kept within [0, 100], upgrades that are bought once and kept, a day
    clock with four periods and night robberies.

    The three intervals of a day (customer arrivals, patience decay, time of day) are
    each one method, called by whoever drives the clock. Every random choice is a
    parameter: the customer archetype, the wanted product, whether a robbery fires,
    which stocked product is stolen; `Date.now()` ids are supplied by the caller. */
module Shop {

  datatype Option<T> = None | Some(value: T)

  datatype Product =
    | Laptop | Phone | Tablet | Headphones
    | Shirt | Pants | Jacket | Shoes
    | Apple | Bread | Milk | Eggs

  /** The products in catalog order, which is also the key order of the inventory. */
  function Products(): seq<Product>
  {
    [Laptop, Phone, Tablet, Headphones, Shirt, Pants, Jacket, Shoes, Apple, Bread, Milk, Eggs]
  }

  function Cost(p: Product): int
  {
    match p
    case Laptop => 800 case Phone => 600 case Tablet => 400 case Headphones => 150
    case Shirt => 25 case Pants => 40 case Jacket => 80 case Shoes => 60
    case Apple => 2 case Bread => 3 case Milk => 4 case Eggs => 5
  }

  function SellPrice(p: Product): int
  {
    match p
    case Laptop => 1200 case Phone => 900 case Tablet => 600 case Headphones => 220
    case Shirt => 40 case Pants => 65 case Jacket => 120 case Shoes => 90
    case Apple => 3 case Bread => 5 case Milk => 6 case Eggs => 8
  }

  datatype Upgrade = Counter | Storage | Advertising | Security

  function UpgradePrice(u: Upgrade): int
  {
    match u
    case Counter => 500 case Storage => 300 case Advertising => 200 case Security => 400
  }

  datatype TimeOfDay = Morning | Afternoon | Evening | Night

  datatype Mood = Happy | Neutral | Angry

  /** The customerStats counters, one per mood. */
  datatype Stats = Stats(happy: nat, neutral: nat, angry: nat)

  /** `customerStats[mood]++`. */
  function Bump(s: Stats, m: Mood): Stats
  {
    match m
    case Happy => s.(happy := s.happy + 1)
    case Neutral => s.(neutral := s.neutral + 1)
    case Angry => s.(angry := s.angry + 1)
  }

  /** A customer type: starting patience (seconds) and budget. */
  datatype Archetype = Archetype(patience: int, budget: int)

  function Archetypes(): seq<Archetype>
  {
    [ Archetype(8, 1500),    // Businessman
      Archetype(6, 1200),    // Professional
      Archetype(7, 1000),    // Student
      Archetype(10, 800),    // Senior
      Archetype(9, 700) ]    // Elderly
  }

  datatype Customer = Customer(id: int, kind: nat, patience: int, budget: int, wants: Option<Product>)

  datatype GameState = Waiting | Playing | Paused

  const MaxQueue: nat := 5
  const StartMoney: int := 1000
  const StartReputation: int := 50
  const DayLength: int := 100
  const HappyGain: int := 2
  const AngryLoss: int := 3

  function Max(a: int, b: int): int { if a < b then b else a }

  /** `Math.max(0, Math.min(100, x))`. */
  function Clamp(x: int): (r: int)
    ensures 0 <= r <= 100
    ensures 0 <= x <= 100 ==> r == x
    ensures x < 0 ==> r == 0
    ensures x > 100 ==> r == 100
  {
    if x < 0 then 0 else if x > 100 then 100 else x
  }

  function MoodDelta(m: Mood): int
  {
    match m
    case Happy => HappyGain
    case Neutral => 0
    case Angry => -AngryLoss
  }

  /** The period of the day shown at a given progress. */
  function TimeOfDayAt(progress: int): (t: TimeOfDay)
    ensures t == Morning <==> progress <= 25
    ensures t == Afternoon <==> 25 < progress <= 50
    ensures t == Evening <==> 50 < progress <= 75
    ensures t == Night <==> 75 < progress
  {
    if progress <= 25 then Morning
    else if progress <= 50 then Afternoon
    else if progress <= 75 then Evening
    else Night
  }

  function PeriodRank(t: TimeOfDay): nat
  {
    match t
    case Morning => 0 case Afternoon => 1 case Evening => 2 case Night => 3
  }

  /** As progress grows the period never goes back. */
  lemma PeriodsOnlyAdvance(p: int, q: int)
    requires p <= q
    ensures PeriodRank(TimeOfDayAt(p)) <= PeriodRank(TimeOfDayAt(q))
  {
  }

  /** No queued customer carries `id`. */
  predicate Absent(q: seq<Customer>, id: int)
  {
    forall c :: c in q ==> c.id != id
  }

  /** The id of the customer at position `i`. */
  function IdAt(q: seq<Customer>, i: int): int
  {
    if 0 <= i < |q| then q[i].id else 0
  }

  /** No two queued customers share an id (`Date.now()` ids are taken as unique). */
  predicate DistinctIds(q: seq<Customer>)
  {
    forall i, j {:trigger IdAt(q, i), IdAt(q, j)} :: 0 <= i < j < |q| ==> IdAt(q, i) != IdAt(q, j)
  }

  lemma DistinctIdsSnoc(q: seq<Customer>, c: Customer)
    ensures DistinctIds(q + [c]) <==> DistinctIds(q) && Absent(q, c.id)
  {
    var r := q + [c];
    if DistinctIds(q) && Absent(q, c.id) {
      forall i, j | 0 <= i < j < |r| ensures IdAt(r, i) != IdAt(r, j) {
        if j == |q| {
          assert r[i] in q;
        } else {
          assert IdAt(r, i) == IdAt(q, i) && IdAt(r, j) == IdAt(q, j);
        }
      }
    }
    if DistinctIds(r) {
      forall i, j | 0 <= i < j < |q| ensures IdAt(q, i) != IdAt(q, j) {
        assert IdAt(r, i) == IdAt(q, i) && IdAt(r, j) == IdAt(q, j);
      }
      forall x | x in q ensures x.id != c.id {
        var i :| 0 <= i < |q| && q[i] == x;
        assert IdAt(r, i) != IdAt(r, |q|);
      }
    }
  }

  /** With distinct ids, the head's id appears nowhere in the tail. */
  lemma HeadIdUnique(q: seq<Customer>)
    requires |q| > 0 && DistinctIds(q)
    ensures Absent(q[1..], q[0].id) && DistinctIds(q[1..])
  {
    forall x | x in q[1..] ensures x.id != q[0].id {
      var k :| 0 <= k < |q[1..]| && q[1..][k] == x;
      assert IdAt(q, 0) != IdAt(q, k + 1);
    }
    forall i, j | 0 <= i < j < |q[1..]| ensures IdAt(q[1..], i) != IdAt(q[1..], j) {
      assert IdAt(q, i + 1) != IdAt(q, j + 1);
    }
  }

  /** A prefix of a queue with distinct ids has distinct ids. */
  lemma DistinctPrefix(q: seq<Customer>, n: nat)
    requires DistinctIds(q) && n <= |q|
    ensures DistinctIds(q[..n])
  {
    forall i, j | 0 <= i < j < n ensures IdAt(q[..n], i) != IdAt(q[..n], j) {
      assert IdAt(q, i) != IdAt(q, j);
    }
  }

  /** `filter(c => c.id !== id)`: the queue without the customers carrying `id`,
      the others in their order. */
  function RemoveId(q: seq<Customer>, id: int): (r: seq<Customer>)
    ensures |r| <= |q|
    ensures |r| == |q| ==> r == q
  {
    if q == [] then []
    else if q[0].id == id then RemoveId(q[1..], id)
    else [q[0]] + RemoveId(q[1..], id)
  }

  /** Exactly the customers without `id` stay; if none has it, nothing changes. */
  lemma {:induction false} RemoveIdMembers(q: seq<Customer>, id: int)
    ensures forall c :: c in RemoveId(q, id) <==> c in q && c.id != id
    ensures Absent(q, id) ==> RemoveId(q, id) == q
    decreases |q|
  {
    if q != [] {
      RemoveIdMembers(q[1..], id);
      assert forall c :: c in q <==> c == q[0] || c in q[1..];
      if q[0].id != id {
        assert forall c :: c in [q[0]] + RemoveId(q[1..], id) <==> c == q[0] || c in RemoveId(q[1..], id);
      }
    }
  }

  /** Leaving never makes two queued customers share an id. */
  lemma {:induction false} RemoveIdKeepsDistinct(q: seq<Customer>, id: int)
    requires DistinctIds(q)
    ensures DistinctIds(RemoveId(q, id))
    decreases |q|
  {
    if q != [] {
      HeadIdUnique(q);
      RemoveIdKeepsDistinct(q[1..], id);
      RemoveIdMembers(q[1..], id);
      if q[0].id != id {
        var rest := RemoveId(q[1..], id);
        var r := [q[0]] + rest;
        forall i, j | 0 <= i < j < |r| ensures IdAt(r, i) != IdAt(r, j) {
          if i == 0 {
            assert r[j] in rest;
          } else {
            assert IdAt(rest, i - 1) != IdAt(rest, j - 1);
          }
        }
      }
    }
  }

  lemma {:induction false} RemoveIdConcat(a: seq<Customer>, b: seq<Customer>, id: int)
    ensures RemoveId(a + b, id) == RemoveId(a, id) + RemoveId(b, id)
    decreases |a|
  {
    if a == [] {
      assert a + b == b;
    } else {
      assert (a + b)[0] == a[0] && (a + b)[1..] == a[1..] + b;
      RemoveIdConcat(a[1..], b, id);
    }
  }

  /** With distinct ids, the head leaving leaves exactly the tail. */
  lemma RemoveHead(q: seq<Customer>)
    requires |q| > 0 && DistinctIds(q)
    ensures RemoveId(q, q[0].id) == q[1..] && DistinctIds(q[1..])
  {
    HeadIdUnique(q);
    RemoveIdMembers(q[1..], q[0].id);
  }

  /** Removing an id that only the middle customer carries. */
  lemma RemoveMiddle(a: seq<Customer>, c: Customer, b: seq<Customer>)
    requires Absent(a, c.id) && Absent(b, c.id)
    ensures RemoveId(a + [c] + b, c.id) == a + b
  {
    assert a + [c] + b == a + ([c] + b);
    RemoveIdConcat(a, [c] + b, c.id);
    RemoveIdMembers(a, c.id);
    RemoveIdMembers(b, c.id);
    assert ([c] + b)[1..] == b;
  }

  /** One customer after one second of patience decay, if they are still there. */
  function Survivor(c: Customer): seq<Customer>
  {
    if c.patience - 1 <= 0 then [] else [c.(patience := c.patience - 1)]
  }

  /** The queue after one patience tick: each customer loses one second and those
      at zero or below are gone; the others keep their order. */
  function Decay(q: seq<Customer>): (r: seq<Customer>)
    ensures |r| <= |q|
  {
    if q == [] then []
    else Decay(q[..|q| - 1]) + Survivor(q[|q| - 1])
  }

  /** Every customer in the decayed queue comes from the old queue, one second
      less patient. */
  lemma {:induction false} DecayFrom(q: seq<Customer>, c: Customer)
    requires c in Decay(q)
    ensures exists d :: d in q && d.patience > 1 && c == d.(patience := d.patience - 1)
    decreases |q|
  {
    var init := q[..|q| - 1];
    if c in Decay(init) {
      DecayFrom(init, c);
      var d :| d in init && d.patience > 1 && c == d.(patience := d.patience - 1);
      assert d in q;
    } else {
      assert c in Survivor(q[|q| - 1]);
    }
  }

  /** Everyone still queued after a tick has patience left. */
  lemma DecayPatient(q: seq<Customer>)
    ensures forall c :: c in Decay(q) ==> c.patience > 0
  {
    forall c | c in Decay(q) ensures c.patience > 0 {
      DecayFrom(q, c);
    }
  }

  /** A customer with more than one second left stays, one second less patient. */
  lemma {:induction false} DecayKeeps(q: seq<Customer>, d: Customer)
    requires d in q && d.patience > 1
    ensures d.(patience := d.patience - 1) in Decay(q)
    decreases |q|
  {
    var init := q[..|q| - 1];
    if d != q[|q| - 1] {
      assert q == init + [q[|q| - 1]];
      assert d in init;
      DecayKeeps(init, d);
    }
  }

  /** An absent id stays absent. */
  lemma DecayAbsent(q: seq<Customer>, id: int)
    requires Absent(q, id)
    ensures Absent(Decay(q), id)
  {
    forall c | c in Decay(q) ensures c.id != id {
      DecayFrom(q, c);
    }
  }

  /** With distinct ids, a customer whose patience runs out is gone. */
  lemma {:induction false} DecayDrops(q: seq<Customer>, d: Customer)
    requires DistinctIds(q) && d in q && d.patience <= 1
    ensures Absent(Decay(q), d.id)
    decreases |q|
  {
    var init := q[..|q| - 1];
    var last := q[|q| - 1];
    assert q == init + [last];
    DistinctIdsSnoc(init, last);
    if d == last {
      DecayAbsent(init, d.id);
    } else {
      assert d in init;
      DecayDrops(init, d);
      assert last.id != d.id;
    }
  }

  /** Decay never makes two queued customers share an id. */
  lemma {:induction false} DecayKeepsDistinct(q: seq<Customer>)
    requires DistinctIds(q)
    ensures DistinctIds(Decay(q))
    decreases |q|
  {
    if q != [] {
      var init := q[..|q| - 1];
      var last := q[|q| - 1];
      assert q == init + [last];
      DistinctIdsSnoc(init, last);
      DecayKeepsDistinct(init);
      if Survivor(last) != [] {
        DecayAbsent(init, last.id);
        DistinctIdsSnoc(Decay(init), Survivor(last)[0]);
      } else {
        assert Decay(q) == Decay(init);
      }
    }
  }

  /** One step of the patience tick's walk over the queue: the decayed prefix grows
      by the survivor of customer `i`, whose id occurs nowhere else. */
  lemma DecayStep(s: seq<Customer>, i: nat)
    requires DistinctIds(s) && i < |s|
    ensures Decay(s[..i + 1]) == Decay(s[..i]) + Survivor(s[i])
    ensures s[i..] == [s[i]] + s[i + 1..]
    ensures Absent(Decay(s[..i]), s[i].id) && Absent(s[i + 1..], s[i].id)
  {
    assert s[..i + 1][..i] == s[..i];
    assert s[..i + 1] == s[..i] + [s[i]];
    DistinctPrefix(s, i + 1);
    DistinctIdsSnoc(s[..i], s[i]);
    DecayAbsent(s[..i], s[i].id);
    forall x | x in s[i + 1..] ensures x.id != s[i].id {
      var k :| 0 <= k < |s[i + 1..]| && s[i + 1..][k] == x;
      assert IdAt(s, i) != IdAt(s, i + 1 + k);
    }
  }

  /** Overwriting the middle element of `a + [c] + b`. */
  lemma SetMiddle(a: seq<Customer>, c: Customer, u: Customer, b: seq<Customer>)
    ensures (a + ([c] + b))[|a| := u] == a + [u] + b
  {
    assert (a + ([c] + b))[|a| := u] == a + ([u] + b);
  }

  /** Reputation `r` after `n` angry departures, clamped after each one. */
  function AngryFloor(r: int, n: nat): (res: int)
    ensures 0 <= r <= 100 ==> 0 <= res <= 100
  {
    if n == 0 then r else Clamp(AngryFloor(r, n - 1) + MoodDelta(Angry))
  }

  /** Clamping after each departure is the same as subtracting them all and
      clamping once at zero. */
  lemma {:induction false} AngryFloorClosedForm(r: int, n: nat)
    requires 0 <= r <= 100
    ensures AngryFloor(r, n) == Max(0, r - AngryLoss * n)
  {
    if n > 0 {
      AngryFloorClosedForm(r, n - 1);
    }
  }

  /** The stocked products, in inventory key order: the robber's candidates. */
  function InStock(inv: map<Product, int>, ps: seq<Product>): (r: seq<Product>)
    ensures forall p :: p in r <==> p in ps && p in inv && inv[p] > 0
  {
    if ps == [] then []
    else (if ps[0] in inv && inv[ps[0]] > 0 then [ps[0]] else []) + InStock(inv, ps[1..])
  }

  /** The inventory after a robbery that fires: nothing with the security upgrade or
      when nothing is stocked; otherwise one unit of the stocked product `pick`
      selects. */
  function Robbed(inv: map<Product, int>, secured: bool, pick: nat): (r: map<Product, int>)
    ensures secured ==> r == inv
    ensures (forall p :: p in inv ==> inv[p] <= 0) ==> r == inv
    ensures !secured && (exists p :: p in inv && inv[p] > 0) ==>
      exists p :: p in inv && inv[p] > 0 && r == inv[p := inv[p] - 1]
    ensures r.Keys == inv.Keys
    ensures (forall p :: p in inv ==> inv[p] >= 0) ==> forall p :: p in r ==> r[p] >= 0
  {
    if secured then inv
    else
      var available := InStock(inv, Products());
      if |available| == 0 then
        assert forall p :: p in inv ==> inv[p] <= 0 by {
          forall p | p in inv ensures inv[p] <= 0 {
            assert p in Products() by { assert Products()[ProductIndex(p)] == p; }
          }
        }
        inv
      else
        var stolen := available[pick % |available|];
        inv[stolen := inv[stolen] - 1]
  }

  function ProductIndex(p: Product): (i: nat)
    ensures i < |Products()| && Products()[i] == p
  {
    match p
    case Laptop => 0 case Phone => 1 case Tablet => 2 case Headphones => 3
    case Shirt => 4 case Pants => 5 case Jacket => 6 case Shoes => 7
    case Apple => 8 case Bread => 9 case Milk => 10 case Eggs => 11
  }

  /** `inventory[p] || 0`. */
  function Count(m: map<Product, int>, p: Product): int
  {
    if p in m then m[p] else 0
  }

  /** What one product adds to the day's profit: its margin, which is never
      negative, times the units sold. */
  function LineProfit(p: Product, sold: int): (r: int)
    ensures sold == 0 ==> r == 0
    ensures sold >= 0 ==> r >= 0
  {
    var margin: nat := SellPrice(p) - Cost(p);
    margin * sold
  }

  /** calculateDayProfit's sum over `ps`: margin times units gone since `initial`. */
  function DayProfit(initial: map<Product, int>, current: map<Product, int>, ps: seq<Product>): (r: int)
    ensures (forall i :: 0 <= i < |ps| ==> Count(initial, ps[i]) == Count(current, ps[i])) ==> r == 0
    ensures (forall i :: 0 <= i < |ps| ==> Count(current, ps[i]) <= Count(initial, ps[i])) ==> r >= 0
  {
    if ps == [] then 0
    else
      var p := ps[|ps| - 1];
      DayProfit(initial, current, ps[..|ps| - 1]) + LineProfit(p, Count(initial, p) - Count(current, p))
  }

  /** When the "initial" inventory is the current one, the day's profit is zero. */
  lemma {:induction false} NoProfitFromSameInventory(m: map<Product, int>, ps: seq<Product>)
    ensures DayProfit(m, m, ps) == 0
    decreases |ps|
  {
    if ps != [] {
      NoProfitFromSameInventory(m, ps[..|ps| - 1]);
    }
  }

  /** The shop: the fields the source's game object updates in place. */
  class ShopGame {
    var gameState: GameState
    var money: int
    var day: int
    var reputation: int
    var timeOfDay: TimeOfDay
    var timeProgress: int
    var queue: seq<Customer>                  // currentCustomers
    var inventory: map<Product, int>
    var upgrades: set<Upgrade>
    var customerStats: Stats

    ghost predicate Valid()
      reads this
    {
      && money >= 0
      && 0 <= reputation <= 100
      && day >= 1
      && timeProgress >= 0
      && |queue| <= MaxQueue
      && DistinctIds(queue)
      && (forall c :: c in queue ==> c.patience > 0)
      && (forall p: Product :: p in inventory && inventory[p] >= 0)
    }

    /** The constructor: $1000, day 1, reputation 50, one of every product. */
    constructor ()
      ensures Valid()
      ensures gameState == Waiting && money == StartMoney && day == 1 && reputation == StartReputation
      ensures timeOfDay == Morning && timeProgress == 0 && queue == [] && upgrades == {}
      ensures forall p: Product :: inventory[p] == 1
      ensures customerStats == Stats(0, 0, 0)
    {
      gameState := Waiting;
      money := StartMoney;
      day := 1;
      reputation := StartReputation;
      timeOfDay := Morning;
      timeProgress := 0;
      queue := [];
      inventory := map p | p in Products() :: 1;
      upgrades := {};
      customerStats := Stats(0, 0, 0);
      new;
      forall p: Product ensures p in inventory {
        assert Products()[ProductIndex(p)] == p;
      }
    }

    /** The head of the queue is served: it leaves happy and pays when what it wants
        is in stock, and leaves angry otherwise; an empty queue is left alone. The
        head's budget is not looked at. */
    twostate predicate HeadServed()
      reads this
    {
      if |old(queue)| == 0 then
        && queue == old(queue) && money == old(money) && inventory == old(inventory)
        && customerStats == old(customerStats) && reputation == old(reputation)
      else
        var c := old(queue)[0];
        && queue == old(queue)[1..]
        && if c.wants.Some? && c.wants.value in old(inventory) && old(inventory)[c.wants.value] > 0 then
             var p := c.wants.value;
             && money == old(money) + SellPrice(p)
             && inventory == old(inventory)[p := old(inventory)[p] - 1]
             && customerStats == Bump(old(customerStats), Happy)
             && reputation == Clamp(old(reputation) + HappyGain)
           else
             && money == old(money) && inventory == old(inventory)
             && customerStats == Bump(old(customerStats), Angry)
             && reputation == Clamp(old(reputation) - AngryLoss)
    }

    /** The state changes of endDay when a day is running: queue emptied (without
        moods), the day's profit credited, the day counter advanced. */
    twostate predicate DayEnded()
      reads this
    {
      && gameState == Waiting && queue == [] && day == old(day) + 1
      && money == old(money) + DayProfit(inventory, inventory, Products())
      && money == old(money)
    }

    /** startDay: only from waiting; the clock restarts at morning. */
    method StartDay()
      requires Valid()
      modifies this`gameState, this`timeOfDay, this`timeProgress
      ensures Valid()
      ensures old(gameState) == Waiting ==> gameState == Playing && timeOfDay == Morning && timeProgress == 0
      ensures old(gameState) != Waiting ==> unchanged(this)
    {
      if gameState == Waiting {
        gameState := Playing;
        timeOfDay := Morning;
        timeProgress := 0;
      }
    }

    /** endDay: only while playing. */
    method EndDay()
      requires Valid()
      modifies this`gameState, this`queue, this`money, this`day
      ensures Valid()
      ensures old(gameState) == Playing ==> DayEnded()
      ensures old(gameState) != Playing ==> unchanged(this)
    {
      if gameState == Playing {
        gameState := Waiting;
        queue := [];
        var dayProfit := CalculateDayProfit();
        money := money + dayProfit;
        day := day + 1;
      }
    }

    /** pauseGame: stops arrivals and patience decay; the clock keeps running. */
    method PauseGame()
      requires Valid()
      modifies this`gameState
      ensures Valid()
      ensures gameState == if old(gameState) == Playing then Paused else old(gameState)
    {
      if gameState == Playing {
        gameState := Paused;
      }
    }

    /** resumeGame. */
    method ResumeGame()
      requires Valid()
      modifies this`gameState
      ensures Valid()
      ensures gameState == if old(gameState) == Paused then Playing else old(gameState)
    {
      if gameState == Paused {
        gameState := Playing;
      }
    }

    /** spawnCustomer: a customer of archetype `kind` wanting `wants` joins the end of
        the queue. Its one caller only spawns while fewer than five are queued. */
    method SpawnCustomer(kind: nat, wants: Product, id: int)
      requires Valid() && kind < |Archetypes()| && |queue| < MaxQueue && Absent(queue, id)
      modifies this`queue
      ensures Valid()
      ensures queue == old(queue) + [Customer(id, kind, Archetypes()[kind].patience, Archetypes()[kind].budget, Some(wants))]
    {
      var a := Archetypes()[kind];
      var customer := Customer(id, kind, a.patience, a.budget, Some(wants));
      DistinctIdsSnoc(queue, customer);
      queue := queue + [customer];
    }

    /** One tick of the arrival interval (runs while playing): a customer arrives
        unless five are queued already. */
    method ArrivalTick(kind: nat, wants: Product, id: int)
      requires Valid() && gameState == Playing && kind < |Archetypes()| && Absent(queue, id)
      modifies this`queue
      ensures Valid()
      ensures |old(queue)| < MaxQueue ==>
        queue == old(queue) + [Customer(id, kind, Archetypes()[kind].patience, Archetypes()[kind].budget, Some(wants))]
      ensures |old(queue)| >= MaxQueue ==> queue == old(queue)
    {
      if |queue| < MaxQueue {
        SpawnCustomer(kind, wants, id);
      }
    }

    /** customerLeave: the customer is filtered out by id, its mood is counted and
        reputation moves by +2 (happy) or -3 (angry), clamped to [0, 100]. */
    method CustomerLeave(customer: Customer, mood: Mood)
      modifies this`queue, this`customerStats, this`reputation
      ensures queue == RemoveId(old(queue), customer.id)
      ensures customerStats == Bump(old(customerStats), mood)
      ensures reputation == Clamp(old(reputation) + MoodDelta(mood))
    {
      queue := RemoveId(queue, customer.id);
      customerStats := Bump(customerStats, mood);
      if mood == Happy {
        reputation := reputation + HappyGain;
      } else if mood == Angry {
        reputation := reputation - AngryLoss;
      }
      reputation := Clamp(reputation);
    }

    /** One tick of the patience interval (runs while playing). */
    method PatienceTick()
      requires Valid() && gameState == Playing
      modifies this`queue, this`customerStats, this`reputation
      ensures Valid()
      ensures queue == Decay(old(queue))
      ensures customerStats == old(customerStats).(angry := old(customerStats).angry + (|old(queue)| - |queue|))
      ensures reputation == Max(0, old(reputation) - AngryLoss * (|old(queue)| - |queue|))
    {
      DecayQueue();
      DecayKeepsDistinct(old(queue));
      DecayPatient(old(queue));
      AngryFloorClosedForm(old(reputation), |old(queue)| - |queue|);
    }

    /** The source's forEach over the queue, walking the queue as it was when the
        tick began while each step reassigns the live one. */
    method DecayQueue()
      requires DistinctIds(queue) && 0 <= reputation <= 100
      modifies this`queue, this`customerStats, this`reputation
      ensures queue == Decay(old(queue))
      ensures customerStats == old(customerStats).(angry := old(customerStats).angry + (|old(queue)| - |queue|))
      ensures reputation == AngryFloor(old(reputation), |old(queue)| - |queue|)
    {
      var snapshot := queue;
      ghost var stats0, reputation0 := customerStats, reputation;
      var i := 0;
      assert snapshot[..0] == [] && snapshot[0..] == snapshot;
      assert Decay(snapshot[..0]) == [];
      while i < |snapshot|
        invariant 0 <= i <= |snapshot|
        invariant WalkedTo(snapshot, i, stats0, reputation0)
      {
        PatienceStep(snapshot, i, stats0, reputation0);
        i := i + 1;
      }
      assert snapshot[..i] == snapshot && snapshot[i..] == [];
    }

    /** The state after the walk has visited the first `i` customers of
        `snapshot`: those are decayed, the rest untouched, and every departure so
        far is counted angry and has cost reputation. */
    ghost predicate WalkedTo(snapshot: seq<Customer>, i: nat, stats0: Stats, reputation0: int)
      requires i <= |snapshot|
      reads this
    {
      && DistinctIds(snapshot) && 0 <= reputation0 <= 100
      && queue == Decay(snapshot[..i]) + snapshot[i..]
      && |queue| <= |snapshot|
      && customerStats == stats0.(angry := stats0.angry + (|snapshot| - |queue|))
      && reputation == AngryFloor(reputation0, |snapshot| - |queue|)
    }

    /** The forEach callback for customer `i` of `snapshot`: one second less
        patience, in place, and an angry departure when it reaches zero. */
    method PatienceStep(snapshot: seq<Customer>, i: nat, ghost stats0: Stats, ghost reputation0: int)
      requires i < |snapshot| && WalkedTo(snapshot, i, stats0, reputation0)
      modifies this`queue, this`customerStats, this`reputation
      ensures WalkedTo(snapshot, i + 1, stats0, reputation0)
    {
      var c := snapshot[i];
      ghost var left := Decay(snapshot[..i]);
      ghost var right := snapshot[i + 1..];
      ghost var gone: nat := |snapshot| - |queue|;
      DecayStep(snapshot, i);
      var updated := c.(patience := c.patience - 1);
      assert |queue| - (|snapshot| - i) == |left|;
      SetMiddle(left, c, updated, right);
      queue := queue[|queue| - (|snapshot| - i) := updated];
      if updated.patience <= 0 {
        RemoveMiddle(left, updated, right);
        CustomerLeave(updated, Angry);
        assert queue == left + right;
        assert |snapshot| - |queue| == gone + 1;
      } else {
        assert queue == left + [updated] + right;
      }
    }

    /** serveNextCustomer. */
    method ServeNextCustomer()
      requires Valid()
      modifies this`queue, this`customerStats, this`reputation, this`money, this`inventory
      ensures Valid()
      ensures HeadServed()
    {
      if |queue| == 0 {
        return;
      }
      var customer := queue[0];
      RemoveHead(queue);
      if customer.wants.None? || inventory[customer.wants.value] <= 0 {
        CustomerLeave(customer, Angry);
        return;
      }
      var product := customer.wants.value;
      money := money + SellPrice(product);
      inventory := inventory[product := inventory[product] - 1];
      CustomerLeave(customer, Happy);
    }

    /** serveCustomer: a click on the customer with `id`. Turned away angry when it
        wants nothing, its product is out of stock or it cannot afford it; otherwise
        the head of the queue is served, whoever was clicked. A click on an id that
        is not queued fails inside the source (customerLeave of undefined) and
        changes nothing. */
    method ServeCustomer(id: int)
      requires Valid()
      modifies this`queue, this`customerStats, this`reputation, this`money, this`inventory
      ensures Valid()
      ensures Absent(old(queue), id) ==> unchanged(this)
      ensures forall c :: c in old(queue) && c.id == id ==>
        if c.wants.None? || old(inventory)[c.wants.value] <= 0 || c.budget < SellPrice(c.wants.value) then
          && queue == RemoveId(old(queue), id) && money == old(money) && inventory == old(inventory)
          && customerStats == Bump(old(customerStats), Angry)
          && reputation == Clamp(old(reputation) - AngryLoss)
        else
          HeadServed()
    {
      var k := 0;
      while k < |queue| && queue[k].id != id
        invariant 0 <= k <= |queue|
        invariant forall j :: 0 <= j < k ==> queue[j].id != id
      {
        k := k + 1;
      }
      if k == |queue| {
        return;
      }
      var customer := queue[k];
      forall x | x in queue && x.id == id ensures x == customer {
        var j :| 0 <= j < |queue| && queue[j] == x;
        assert j < k ==> IdAt(queue, j) != IdAt(queue, k);
        assert k < j ==> IdAt(queue, k) != IdAt(queue, j);
      }
      RemoveIdKeepsDistinct(queue, id);
      RemoveIdMembers(queue, id);
      if customer.wants.None? {
        CustomerLeave(customer, Angry);
        return;
      }
      var product := customer.wants.value;
      if inventory[product] <= 0 {
        CustomerLeave(customer, Angry);
        return;
      }
      if customer.budget < SellPrice(product) {
        CustomerLeave(customer, Angry);
        return;
      }
      ServeNextCustomer();
    }

    /** handleRobbery: one unit of the stocked product `pick` selects is taken,
        unless security is installed or nothing is stocked. */
    method HandleRobbery(pick: nat)
      requires Valid()
      modifies this`inventory
      ensures Valid()
      ensures inventory == Robbed(old(inventory), Security in upgrades, pick)
    {
      if Security in upgrades {
        return;
      }
      var availableItems := InStock(inventory, Products());
      if |availableItems| == 0 {
        return;
      }
      var stolenItem := availableItems[pick % |availableItems|];
      inventory := inventory[stolenItem := inventory[stolenItem] - 1];
    }

    /** One tick of the time-progression interval, which runs from startDay to endDay
        and so also while paused: the clock advances, the period follows it, at night
        a robbery may fire (`robbery`), and at 100 the day ends if it is playing. */
    method TimeTick(robbery: bool, pick: nat)
      requires Valid() && gameState != Waiting
      modifies this`timeProgress, this`timeOfDay, this`inventory, this`gameState, this`queue, this`money, this`day
      ensures Valid()
      ensures timeProgress == old(timeProgress) + 1
      ensures timeOfDay == TimeOfDayAt(timeProgress)
      ensures inventory == if timeOfDay == Night && robbery
        then Robbed(old(inventory), Security in upgrades, pick) else old(inventory)
      ensures timeProgress >= DayLength && old(gameState) == Playing ==> DayEnded()
      ensures !(timeProgress >= DayLength && old(gameState) == Playing) ==>
        unchanged(this`gameState, this`queue, this`money, this`day)
    {
      timeProgress := timeProgress + 1;
      if timeProgress <= 25 {
        timeOfDay := Morning;
      } else if timeProgress <= 50 {
        timeOfDay := Afternoon;
      } else if timeProgress <= 75 {
        timeOfDay := Evening;
      } else {
        timeOfDay := Night;
        if robbery {
          HandleRobbery(pick);
        }
      }
      if timeProgress >= DayLength {
        EndDay();
      }
    }

    /** buyProduct: refused when money is short; otherwise debits the cost and adds
        one unit. */
    method BuyProduct(p: Product)
      requires Valid()
      modifies this`money, this`inventory
      ensures Valid()
      ensures old(money) < Cost(p) ==> unchanged(this)
      ensures old(money) >= Cost(p) ==>
        money == old(money) - Cost(p) && inventory == old(inventory)[p := old(inventory)[p] + 1]
    {
      if money < Cost(p) {
        return;
      }
      money := money - Cost(p);
      inventory := inventory[p := Count(inventory, p) + 1];
    }

    /** buyUpgrade: refused when money is short or the upgrade is owned already;
        otherwise debits the price and keeps the upgrade. */
    method BuyUpgrade(u: Upgrade)
      requires Valid()
      modifies this`money, this`upgrades
      ensures Valid()
      ensures old(upgrades) <= upgrades
      ensures old(money) < UpgradePrice(u) || u in old(upgrades) ==> unchanged(this)
      ensures old(money) >= UpgradePrice(u) && u !in old(upgrades) ==>
        money == old(money) - UpgradePrice(u) && upgrades == old(upgrades) + {u}
    {
      var price := UpgradePrice(u);
      if money < price {
        return;
      }
      if u in upgrades {
        return;
      }
      money := money - price;
      upgrades := upgrades + {u};
    }

    /** getInitialInventory: returns the current count. */
    function GetInitialInventory(p: Product): (r: int)
      reads this
      ensures p in inventory ==> r == inventory[p]
      ensures p !in inventory ==> r == 0
    {
      Count(inventory, p)
    }

    /** calculateDayProfit: since the "initial" count is the current one, always 0. */
    method CalculateDayProfit() returns (profit: int)
      ensures profit == DayProfit(inventory, inventory, Products())
      ensures profit == 0
    {
      profit := 0;
      var ps := Products();
      var i := 0;
      while i < |ps|
        invariant 0 <= i <= |ps|
        invariant profit == DayProfit(inventory, inventory, ps[..i])
      {
        var p := ps[i];
        var sold := GetInitialInventory(p) - Count(inventory, p);
        assert ps[..i + 1][..i] == ps[..i];
        var productProfit := (SellPrice(p) - Cost(p)) * sold;
        assert productProfit == LineProfit(p, sold);
        profit := profit + productProfit;
        i := i + 1;
      }
      assert ps[..i] == ps;
      NoProfitFromSameInventory(inventory, ps);
    }
  }
}
