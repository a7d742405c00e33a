/** GameManager: the gold and health ledger. */
module Economy {
  import opened Common

  /** The abstract state of the ledger; GameOver() calls are counted rather than shown. */
  datatype Ledger = Ledger(gold: int, health: int, gameOvers: nat)

  /** CanAfford as a value-level predicate. */
  predicate Affordable(l: Ledger, cost: int) { l.gold >= cost }

  /** TryPurchase on the abstract ledger: the new ledger and whether the purchase went through. */
  function Purchase(l: Ledger, cost: int): (r: (Ledger, bool))
  {
    if Affordable(l, cost) then (l.(gold := l.gold - cost), true) else (l, false)
  }

  /** AddGold on the abstract ledger. */
  function Credit(l: Ledger, amount: int): Ledger
  {
    l.(gold := l.gold + amount)
  }

  /** TakeDamage on the abstract ledger: health clamps at 0 and every call ending at 0 is a game over. */
  function Damage(l: Ledger, damage: int): Ledger
  {
    var h := if 0 >= l.health - damage then 0 else l.health - damage;
    l.(health := h, gameOvers := l.gameOvers + (if h <= 0 then 1 else 0))
  }

  /** Applies TakeDamage once per entry of `ds`, left to right. */
  function DamageAll(l: Ledger, ds: seq<int>): Ledger
    decreases |ds|
  {
    if ds == [] then l else DamageAll(Damage(l, ds[0]), ds[1..])
  }

  function Sum(ds: seq<int>): int
    decreases |ds|
  {
    if ds == [] then 0 else ds[0] + Sum(ds[1..])
  }

  /** A purchase succeeds exactly when it is affordable, and then removes exactly `cost`;
      otherwise nothing changes. Health and game-over count are never touched. */
  lemma PurchaseExact(l: Ledger, cost: int)
    ensures Purchase(l, cost).1 <==> l.gold >= cost
    ensures Purchase(l, cost).1 ==> Purchase(l, cost).0.gold == l.gold - cost
    ensures !Purchase(l, cost).1 ==> Purchase(l, cost).0 == l
    ensures Purchase(l, cost).0.health == l.health && Purchase(l, cost).0.gameOvers == l.gameOvers
  {
  }

  /** With non-negative gold and cost, a successful purchase never leaves gold negative. */
  lemma PurchaseKeepsGoldNonNegative(l: Ledger, cost: int)
    requires l.gold >= 0 && cost >= 0
    ensures Purchase(l, cost).0.gold >= 0
  {
  }

  /** Damage never drives health below 0, whatever the starting health and damage. */
  lemma DamageNeverNegative(l: Ledger, damage: int)
    ensures Damage(l, damage).health >= 0
    ensures Damage(l, damage).health == Max0(l.health - damage)
  {
  }

  /** A run of non-negative hits from non-negative health leaves max(0, health - total) and no gold change. */
  lemma {:induction false} DamageAllClamps(l: Ledger, ds: seq<int>)
    requires l.health >= 0
    requires forall i :: 0 <= i < |ds| ==> ds[i] >= 0
    ensures DamageAll(l, ds).health == Max0(l.health - Sum(ds))
    ensures DamageAll(l, ds).gold == l.gold
    decreases |ds|
  {
    if ds != [] {
      DamageAllClamps(Damage(l, ds[0]), ds[1..]);
      SumNonNegative(ds[1..]);
    }
  }

  lemma {:induction false} SumNonNegative(ds: seq<int>)
    requires forall i :: 0 <= i < |ds| ==> ds[i] >= 0
    ensures Sum(ds) >= 0
    decreases |ds|
  {
    if ds != [] {
      SumNonNegative(ds[1..]);
    }
  }

  /** Game over is not a one-shot: each of `n` further hits at 0 health fires it once more. */
  lemma {:induction false} GameOverRepeats(l: Ledger, ds: seq<int>)
    requires l.health == 0
    requires forall i :: 0 <= i < |ds| ==> ds[i] >= 0
    ensures DamageAll(l, ds).gameOvers == l.gameOvers + |ds|
    ensures DamageAll(l, ds).health == 0
    decreases |ds|
  {
    if ds != [] {
      GameOverRepeats(Damage(l, ds[0]), ds[1..]);
    }
  }

  /** GameManager. The HUD refresh, sound and time-scale pause of GameOver are left out; each GameOver call
      is counted in `gameOvers`. */
  class GameManager {
    const startingGold: int
    const startingHealth: int
    var currentGold: int
    var currentHealth: int
    var gameOvers: nat

    function State(): Ledger
      reads this
    {
      Ledger(currentGold, currentHealth, gameOvers)
    }

    /** The object as Awake leaves it: every field holds its serialized value. The starting values are 500
        and 100 unless the scene overrides them; the public current gold and health have no initialiser
        (0 unless the scene sets them), and only Start copies the starting values into them. */
    constructor (startingGold: int, startingHealth: int, currentGold: int, currentHealth: int)
      ensures this.startingGold == startingGold && this.startingHealth == startingHealth
      ensures State() == Ledger(currentGold, currentHealth, 0)
    {
      this.startingGold := startingGold;
      this.startingHealth := startingHealth;
      this.currentGold := currentGold;
      this.currentHealth := currentHealth;
      gameOvers := 0;
    }

    /** Start: the ledger takes its starting values. */
    method Start()
      modifies this
      ensures currentGold == startingGold && currentHealth == startingHealth
      ensures gameOvers == old(gameOvers)
    {
      currentGold := startingGold;
      currentHealth := startingHealth;
    }

    predicate CanAfford(cost: int)
      reads this
      ensures CanAfford(cost) == Affordable(State(), cost)
    {
      currentGold >= cost
    }

    method TryPurchase(cost: int) returns (ok: bool)
      modifies this
      ensures (State(), ok) == Purchase(old(State()), cost)
      ensures ok <==> old(currentGold) >= cost
    {
      if CanAfford(cost) {
        currentGold := currentGold - cost;
        return true;
      }
      return false;
    }

    method AddGold(amount: int)
      modifies this
      ensures State() == Credit(old(State()), amount)
      ensures currentHealth == old(currentHealth)
    {
      currentGold := currentGold + amount;
    }

    method TakeDamage(damage: int)
      modifies this
      ensures State() == Damage(old(State()), damage)
    {
      currentHealth := if 0 >= currentHealth - damage then 0 else currentHealth - damage;
      if currentHealth <= 0 {
        GameOver();
      }
    }

    method GameOver()
      modifies this
      ensures gameOvers == old(gameOvers) + 1
      ensures currentGold == old(currentGold) && currentHealth == old(currentHealth)
    {
      gameOvers := gameOvers + 1;
    }
  }
}
