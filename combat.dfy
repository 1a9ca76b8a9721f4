/**
 * Combatant arithmetic and status-effect lists: the value-level rules the battle
 * engine applies to the player and the enemy.
 */
module Combat {
  import opened Wrappers
  import opened Seqs

  datatype StatusKind = Poison | Burn | Stun | Slow | Regeneration | Strength

  /** A timed modifier; `duration` counts the owner's remaining turn ends. */
  datatype StatusEffect = StatusEffect(kind: StatusKind, amount: Option<int>, duration: int, source: Option<string>)

  datatype Combatant = Combatant(health: int, maxHealth: int, energy: int, maxEnergy: int,
                                 armor: int, statusEffects: seq<StatusEffect>)

  function Max(a: int, b: int): int { if a >= b then a else b }

  function Min(a: int, b: int): int { if a <= b then a else b }

  /** Health within [0, maxHealth], no negative armor, energy within [0, maxEnergy]. */
  predicate InBounds(c: Combatant)
  {
    0 <= c.health <= c.maxHealth && 0 <= c.armor && 0 <= c.energy <= c.maxEnergy
  }

  /** At most one active effect of each kind. */
  predicate OneOfEachKind(effects: seq<StatusEffect>)
  {
    forall i, j :: 0 <= i < j < |effects| ==> effects[i].kind != effects[j].kind
  }

  predicate NonNegativeAmounts(effects: seq<StatusEffect>)
  {
    forall i :: 0 <= i < |effects| ==> effects[i].amount.Some? ==> effects[i].amount.value >= 0
  }

  /** The combatant invariant the engine maintains. */
  predicate WellFormed(c: Combatant)
  {
    InBounds(c) && OneOfEachKind(c.statusEffects) && NonNegativeAmounts(c.statusEffects)
  }

  /**
   * A hit of `amount`: armor absorbs up to `amount` and is used up by it, and at
   * least one point always reaches health, which stops at 0.
   */
  function Damage(c: Combatant, amount: int): (r: Combatant)
    ensures r == c.(health := r.health, armor := r.armor)
    ensures InBounds(c) ==> InBounds(r)
    ensures c.health > 0 ==> 0 <= r.health < c.health
    ensures c.armor >= 0 && amount >= 0 ==> c.armor - r.armor == Min(c.armor, amount)
    ensures c.health >= 0 && c.armor >= 0 && amount > c.armor ==>
              r.health == Max(0, c.health - (amount - c.armor))
    ensures c.health >= 0 && c.armor >= amount ==> r.health == Max(0, c.health - 1)
  {
    var actualDamage := Max(1, amount - c.armor);
    c.(armor := Max(0, c.armor - amount), health := Max(0, c.health - actualDamage))
  }

  /** Healing never raises health above `maxHealth`. */
  function Heal(c: Combatant, amount: int): (r: Combatant)
    ensures r == c.(health := r.health)
    ensures r.health <= c.maxHealth || r.health == c.health + amount
    ensures c.health <= c.maxHealth && amount >= 0 ==> c.health <= r.health <= c.maxHealth
    ensures c.health + amount <= c.maxHealth ==> r.health == c.health + amount
    ensures c.health + amount > c.maxHealth ==> r.health == c.maxHealth
    ensures InBounds(c) && amount >= 0 ==> InBounds(r)
  {
    c.(health := Min(c.maxHealth, c.health + amount))
  }

  /** The energy effect: energy rises by `amount` but never above `maxEnergy`. */
  function GainEnergy(c: Combatant, amount: int): (r: Combatant)
    ensures r == c.(energy := r.energy)
    ensures r.energy <= c.maxEnergy
    ensures c.energy + amount <= c.maxEnergy ==> r.energy == c.energy + amount
    ensures c.energy + amount > c.maxEnergy ==> r.energy == c.maxEnergy
    ensures InBounds(c) && amount >= 0 ==> InBounds(r) && r.energy >= c.energy
  {
    c.(energy := Min(c.maxEnergy, c.energy + amount))
  }

  // ---------------------------------------------------------------- status lists

  /** `effects.filter(e => e.type !== kind)`. */
  function RemoveKind(effects: seq<StatusEffect>, kind: StatusKind): (r: seq<StatusEffect>)
    ensures |r| <= |effects|
    ensures IsSubsequence(r, effects)
    ensures forall i :: 0 <= i < |r| ==> r[i].kind != kind && r[i] in effects
    ensures OneOfEachKind(effects) ==> OneOfEachKind(r)
    ensures NonNegativeAmounts(effects) ==> NonNegativeAmounts(r)
  {
    if effects == [] then []
    else if effects[0].kind != kind then [effects[0]] + RemoveKind(effects[1..], kind)
    else RemoveKind(effects[1..], kind)
  }

  /** `RemoveKind` is the stable filter on the other kinds: every other effect is kept, in order. */
  lemma {:induction false} RemoveKindIsFilter(effects: seq<StatusEffect>, kind: StatusKind)
    ensures RemoveKind(effects, kind) == Filter(effects, (e: StatusEffect) => e.kind != kind)
  {
    if effects != [] {
      RemoveKindIsFilter(effects[1..], kind);
    }
  }

  /** The effects of one kind, in list order. */
  function OfKind(effects: seq<StatusEffect>, kind: StatusKind): (r: seq<StatusEffect>)
    ensures forall i :: 0 <= i < |r| ==> r[i].kind == kind && r[i] in effects
  {
    if effects == [] then []
    else if effects[0].kind == kind then [effects[0]] + OfKind(effects[1..], kind)
    else OfKind(effects[1..], kind)
  }

  lemma {:induction false} OfKindAppend(a: seq<StatusEffect>, b: seq<StatusEffect>)
    ensures forall kind :: OfKind(a + b, kind) == OfKind(a, kind) + OfKind(b, kind)
  {
    if a == [] {
      assert a + b == b;
    } else {
      assert (a + b)[0] == a[0] && (a + b)[1..] == a[1..] + b;
      OfKindAppend(a[1..], b);
    }
  }

  /** Removing one kind leaves every other kind's effects exactly as they were, in order. */
  lemma {:induction false} OfKindAfterRemoveKind(effects: seq<StatusEffect>, removed: StatusKind)
    ensures forall kind :: kind != removed ==> OfKind(RemoveKind(effects, removed), kind) == OfKind(effects, kind)
  {
    if effects != [] {
      OfKindAfterRemoveKind(effects[1..], removed);
    }
  }

  /**
   * `addStatusEffect`: drop the effect of the same kind, then append the new one.
   * Re-applying a kind replaces it (no stacking) and moves it to the end.
   */
  function AddStatus(effects: seq<StatusEffect>, e: StatusEffect): (r: seq<StatusEffect>)
    ensures |r| >= 1 && r[|r| - 1] == e
    ensures IsSubsequence(r[..|r| - 1], effects)
    ensures forall i :: 0 <= i < |r| - 1 ==> r[i].kind != e.kind
    ensures OfKind(r, e.kind) == [e]
    ensures forall k :: k != e.kind ==> OfKind(r, k) == OfKind(effects, k)
    ensures OneOfEachKind(effects) ==> OneOfEachKind(r)
    ensures NonNegativeAmounts(effects) && (e.amount.Some? ==> e.amount.value >= 0) ==> NonNegativeAmounts(r)
  {
    var kept := RemoveKind(effects, e.kind);
    AppendedKinds(effects, e);
    assert (kept + [e])[..|kept|] == kept;
    kept + [e]
  }

  /** After the removal and the append, the new kind has one effect and every other kind is as before. */
  lemma AppendedKinds(effects: seq<StatusEffect>, e: StatusEffect)
    ensures OfKind(RemoveKind(effects, e.kind) + [e], e.kind) == [e]
    ensures forall k :: k != e.kind ==> OfKind(RemoveKind(effects, e.kind) + [e], k) == OfKind(effects, k)
  {
    var kept := RemoveKind(effects, e.kind);
    OfKindAppend(kept, [e]);
    OfKindNone(kept, e.kind);
    OfKindAfterRemoveKind(effects, e.kind);
    assert [e][1..] == [];
    assert OfKind([e], e.kind) == [e];
    assert forall k :: k != e.kind ==> OfKind([e], k) == [];
  }

  lemma {:induction false} OfKindNone(effects: seq<StatusEffect>, kind: StatusKind)
    requires forall i :: 0 <= i < |effects| ==> effects[i].kind != kind
    ensures OfKind(effects, kind) == []
  {
    if effects != [] {
      OfKindNone(effects[1..], kind);
    }
  }

  /** Every effect loses one turn of duration (the in-place `effect.duration--`). */
  function Decrement(effects: seq<StatusEffect>): (r: seq<StatusEffect>)
    ensures |r| == |effects|
    ensures forall i :: 0 <= i < |effects| ==> r[i] == effects[i].(duration := effects[i].duration - 1)
  {
    if effects == [] then [] else [effects[0].(duration := effects[0].duration - 1)] + Decrement(effects[1..])
  }

  /** The effects still active, in their stored order (a stable filter). */
  function Survivors(effects: seq<StatusEffect>): seq<StatusEffect>
  {
    if effects == [] then []
    else if effects[0].duration > 0 then [effects[0]] + Survivors(effects[1..])
    else Survivors(effects[1..])
  }

  /** An effect that still has turns left. */
  predicate Active(e: StatusEffect)
  {
    e.duration > 0
  }

  /** `Survivors` is the stable filter on `Active`: exactly the active effects, in stored order. */
  lemma {:induction false} SurvivorsIsFilter(effects: seq<StatusEffect>)
    ensures Survivors(effects) == Filter(effects, Active)
  {
    if effects != [] {
      SurvivorsIsFilter(effects[1..]);
    }
  }

  /** Only active effects survive, each taken from the list, and none is invented. */
  lemma {:induction false} SurvivorsFromList(effects: seq<StatusEffect>)
    ensures |Survivors(effects)| <= |effects|
    ensures forall i :: 0 <= i < |Survivors(effects)| ==> Survivors(effects)[i].duration > 0
    ensures multiset(Survivors(effects)) <= multiset(effects)
  {
    if effects != [] {
      var rest := effects[1..];
      SurvivorsFromList(rest);
      assert multiset(effects) == multiset([effects[0]]) + multiset(rest) by {
        assert effects == [effects[0]] + rest;
      }
      if effects[0].duration > 0 {
        var r := Survivors(effects);
        assert r == [effects[0]] + Survivors(rest);
        assert multiset(r) == multiset([effects[0]]) + multiset(Survivors(rest));
        forall i | 0 <= i < |r| ensures r[i].duration > 0 {
          if i > 0 {
            assert r[i] == Survivors(rest)[i - 1];
          }
        }
      }
    }
  }

  /** Filtering keeps the list's invariants: one effect per kind and no negative amount. */
  lemma {:induction false} SurvivorsKeepInvariants(effects: seq<StatusEffect>)
    ensures OneOfEachKind(effects) ==> OneOfEachKind(Survivors(effects))
    ensures NonNegativeAmounts(effects) ==> NonNegativeAmounts(Survivors(effects))
  {
    if effects != [] {
      var rest := effects[1..];
      SurvivorsKeepInvariants(rest);
      SurvivorsFromList(rest);
      assert forall k :: 1 <= k < |effects| ==> effects[k] == rest[k - 1];
      if effects[0].duration > 0 {
        KindMissingFromPart(rest, Survivors(rest), effects[0].kind);
        if NonNegativeAmounts(effects) {
          var r := Survivors(effects);
          assert r == [effects[0]] + Survivors(rest);
          forall i | 0 <= i < |r| && r[i].amount.Some? ensures r[i].amount.value >= 0 {
            if i > 0 {
              assert r[i] == Survivors(rest)[i - 1];
            }
          }
        }
      }
    }
  }

  /** A kind absent from a list is absent from every sub-multiset of it. */
  lemma KindMissingFromPart(whole: seq<StatusEffect>, part: seq<StatusEffect>, kind: StatusKind)
    requires multiset(part) <= multiset(whole)
    ensures (forall j :: 0 <= j < |whole| ==> whole[j].kind != kind) ==>
            forall i :: 0 <= i < |part| ==> part[i].kind != kind
  {
    forall i | 0 <= i < |part| ensures part[i] in whole {
      assert part[i] in multiset(part);
    }
  }

  /** Nothing still active is dropped. */
  lemma {:induction false} SurvivorsKeepActive(effects: seq<StatusEffect>)
    ensures forall k :: 0 <= k < |effects| && effects[k].duration > 0 ==> effects[k] in Survivors(effects)
  {
    if effects != [] {
      SurvivorsKeepActive(effects[1..]);
      assert forall k :: 1 <= k < |effects| ==> effects[k] == effects[1..][k - 1];
    }
  }

  lemma {:induction false} SurvivorsAppend(a: seq<StatusEffect>, b: seq<StatusEffect>)
    ensures Survivors(a + b) == Survivors(a) + Survivors(b)
  {
    if a == [] {
      assert a + b == b;
    } else {
      assert (a + b)[0] == a[0] && (a + b)[1..] == a[1..] + b;
      SurvivorsAppend(a[1..], b);
    }
  }

  lemma {:induction false} SurvivorsOfActive(effects: seq<StatusEffect>)
    requires forall i :: 0 <= i < |effects| ==> effects[i].duration > 0
    ensures Survivors(effects) == effects
  {
    if effects != [] {
      SurvivorsOfActive(effects[1..]);
    }
  }

  /** An expired effect after active ones is the only one dropped before `rest`. */
  lemma {:induction false} SurvivorsSkipExpired(alive: seq<StatusEffect>, expired: StatusEffect, rest: seq<StatusEffect>)
    requires forall i :: 0 <= i < |alive| ==> alive[i].duration > 0
    requires expired.duration <= 0
    ensures Survivors(alive + [expired] + rest) == alive + Survivors(rest)
  {
    var all := alive + [expired] + rest;
    if alive == [] {
      assert all[0] == expired && all[1..] == rest;
    } else {
      assert all[0] == alive[0] && all[1..] == alive[1..] + [expired] + rest;
      SurvivorsSkipExpired(alive[1..], expired, rest);
      assert alive == [alive[0]] + alive[1..];
    }
  }

  /**
   * The list left after one status tick: every duration drops by exactly one and
   * the effects that reach 0 or less are removed, the others keeping their order.
   */
  function Tick(effects: seq<StatusEffect>): (r: seq<StatusEffect>)
    ensures |r| <= |effects|
    ensures forall i :: 0 <= i < |r| ==> r[i].duration > 0
    ensures IsSubsequence(r, Decrement(effects))
    ensures OneOfEachKind(effects) ==> OneOfEachKind(r)
    ensures NonNegativeAmounts(effects) ==> NonNegativeAmounts(r)
  {
    var dec := Decrement(effects);
    assert OneOfEachKind(effects) ==> OneOfEachKind(dec) by {
      assert forall i :: 0 <= i < |effects| ==> dec[i].kind == effects[i].kind;
    }
    assert NonNegativeAmounts(effects) ==> NonNegativeAmounts(dec) by {
      assert forall i :: 0 <= i < |effects| ==> dec[i].amount == effects[i].amount;
    }
    SurvivorsFromList(dec);
    SurvivorsKeepInvariants(dec);
    SurvivorsIsFilter(dec);
    Survivors(dec)
  }

  /**
   * Every effect left after a tick is one of the originals with one turn less:
   * `k` is where the `i`-th survivor came from.
   */
  lemma TickOrigin(effects: seq<StatusEffect>, i: int) returns (k: int)
    requires 0 <= i < |Tick(effects)|
    ensures 0 <= k < |effects| && Tick(effects)[i] == effects[k].(duration := effects[k].duration - 1)
  {
    var dec := Decrement(effects);
    var t := Tick(effects);
    assert t == Survivors(dec);
    SurvivorsFromList(dec);
    assert t[i] in multiset(t);
    assert t[i] in dec;
    k :| 0 <= k < |dec| && dec[k] == t[i];
  }

  /**
   * A tick is the stable filter on the decremented list: each decremented effect
   * is kept exactly when it is still active, and the kept ones stay in order.
   */
  lemma TickIsStableFilter(effects: seq<StatusEffect>)
    ensures Tick(effects) == Filter(Decrement(effects), Active)
    ensures forall x :: multiset(Tick(effects))[x] == if Active(x) then multiset(Decrement(effects))[x] else 0
  {
    SurvivorsIsFilter(Decrement(effects));
  }

  /** An effect with more than one turn left survives the tick, one turn shorter. */
  lemma TickKeepsUnexpired(effects: seq<StatusEffect>)
    ensures forall k :: 0 <= k < |effects| && effects[k].duration > 1 ==>
              effects[k].(duration := effects[k].duration - 1) in Tick(effects)
  {
    var dec := Decrement(effects);
    SurvivorsKeepActive(dec);
    forall k | 0 <= k < |effects| && effects[k].duration > 1
      ensures effects[k].(duration := effects[k].duration - 1) in Tick(effects)
    {
      assert dec[k].duration > 0;
    }
  }

  /** `n` consecutive ticks. */
  function TickN(effects: seq<StatusEffect>, n: nat): seq<StatusEffect>
    decreases n
  {
    if n == 0 then effects else TickN(Tick(effects), n - 1)
  }

  /** Nothing outlives its duration: after as many ticks as the longest duration, no effect is left. */
  lemma {:induction false} AllExpireAfterLongestDuration(effects: seq<StatusEffect>, n: nat)
    requires forall i :: 0 <= i < |effects| ==> 0 < effects[i].duration <= n
    ensures TickN(effects, n) == []
    decreases n
  {
    if n > 0 {
      var t := Tick(effects);
      forall i | 0 <= i < |t| ensures 0 < t[i].duration <= n - 1 {
        var k := TickOrigin(effects, i);
      }
      AllExpireAfterLongestDuration(t, n - 1);
    }
  }
}
