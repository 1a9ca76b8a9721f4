/**
 * The card catalog: the reference data every run is built from (cards, playable
 * characters, encounters), the pure queries over it, and the cache state that
 * decides whether it must be fetched again.
 */
module Catalog {
  import opened Wrappers
  import opened Seqs

  datatype CardType = Attack | Defense | Utility | Spell
  datatype Rarity = Common | Uncommon | Rare | Epic | Legendary
  datatype CharacterClass = Warrior | Mage | Rogue | Priest | Ranger
  datatype AbilityType = Passive | Active
  datatype AiPersonality = Aggressive | Defensive | Balanced | Chaotic

  /** The lower-case name each tag has in the data, which searches match against. */
  function CardTypeName(t: CardType): string
  {
    match t
    case Attack => "attack"
    case Defense => "defense"
    case Utility => "utility"
    case Spell => "spell"
  }

  function RarityName(r: Rarity): string
  {
    match r
    case Common => "common"
    case Uncommon => "uncommon"
    case Rare => "rare"
    case Epic => "epic"
    case Legendary => "legendary"
  }

  function ClassName(c: CharacterClass): string
  {
    match c
    case Warrior => "warrior"
    case Mage => "mage"
    case Rogue => "rogue"
    case Priest => "priest"
    case Ranger => "ranger"
  }

  function PersonalityName(p: AiPersonality): string
  {
    match p
    case Aggressive => "aggressive"
    case Defensive => "defensive"
    case Balanced => "balanced"
    case Chaotic => "chaotic"
  }

  /**
   * One effect descriptor of a card or of a special ability. `kind` is free text:
   * the combat engine acts on the kinds it knows and ignores the others.
   */
  datatype Effect = Effect(kind: string, amount: Option<int>, duration: Option<int>, trigger: Option<string>)

  datatype Card = Card(id: int, name: string, description: string, cost: int,
                       cardType: CardType, rarity: Rarity, effects: seq<Effect>)

  datatype Ability = Ability(abilityType: AbilityType, name: string, description: string,
                             cost: Option<int>, effects: seq<Effect>)

  datatype Character = Character(id: int, name: string, description: string,
                                 characterClass: CharacterClass, baseHealth: int, baseEnergy: int,
                                 startingDeck: seq<int>, specialAbility: Option<Ability>)

  datatype Rewards = Rewards(scoreBase: int, scoreMultiplier: real)

  datatype Encounter = Encounter(id: int, name: string, description: string, difficulty: int,
                                 enemyHealth: int, enemyDeck: seq<int>,
                                 aiPersonality: AiPersonality, rewards: Option<Rewards>)

  /** Data the combat engine can rely on: no negative cost and no negative effect amount. */
  predicate WellFormedEffects(effects: seq<Effect>)
  {
    forall i :: 0 <= i < |effects| ==> effects[i].amount.Some? ==> effects[i].amount.value >= 0
  }

  predicate WellFormedCard(c: Card)
  {
    c.cost >= 0 && WellFormedEffects(c.effects)
  }

  predicate WellFormedCards(cards: seq<Card>)
  {
    forall i :: 0 <= i < |cards| ==> WellFormedCard(cards[i])
  }

  predicate WellFormedCharacter(ch: Character)
  {
    ch.baseHealth >= 0 && ch.baseEnergy >= 0 &&
    (ch.specialAbility.Some? ==> WellFormedEffects(ch.specialAbility.value.effects))
  }

  predicate WellFormedEncounter(e: Encounter)
  {
    e.enemyHealth >= 0
  }

  // ---------------------------------------------------------------- lookups

  /** `cards.find(card => card.id === id)`. */
  function GetCardById(cards: seq<Card>, id: int): (r: Option<Card>)
    ensures r.None? <==> forall i :: 0 <= i < |cards| ==> cards[i].id != id
    ensures r.Some? ==> exists i :: 0 <= i < |cards| && cards[i] == r.value && r.value.id == id
                                    && forall j :: 0 <= j < i ==> cards[j].id != id
  {
    Find(cards, (c: Card) => c.id == id)
  }

  function GetCharacterById(characters: seq<Character>, id: int): (r: Option<Character>)
    ensures r.None? <==> forall i :: 0 <= i < |characters| ==> characters[i].id != id
    ensures r.Some? ==> exists i :: 0 <= i < |characters| && characters[i] == r.value && r.value.id == id
                                    && forall j :: 0 <= j < i ==> characters[j].id != id
  {
    Find(characters, (c: Character) => c.id == id)
  }

  function GetEncounterById(encounters: seq<Encounter>, id: int): (r: Option<Encounter>)
    ensures r.None? <==> forall i :: 0 <= i < |encounters| ==> encounters[i].id != id
    ensures r.Some? ==> exists i :: 0 <= i < |encounters| && encounters[i] == r.value && r.value.id == id
                                    && forall j :: 0 <= j < i ==> encounters[j].id != id
  {
    Find(encounters, (e: Encounter) => e.id == id)
  }

  /** The ids of a list of cards, in order. */
  function IdsOf(cards: seq<Card>): (r: seq<int>)
    ensures |r| == |cards|
    ensures forall i :: 0 <= i < |cards| ==> r[i] == cards[i].id
  {
    if cards == [] then [] else [cards[0].id] + IdsOf(cards[1..])
  }

  /** Whether the catalog has a card with this id. */
  predicate Resolves(cards: seq<Card>, id: int)
  {
    GetCardById(cards, id).Some?
  }

  /**
   * Deck building: `ids.map(find).filter(Boolean)`. Each id yields the first catalog
   * card with that id; ids with no card are dropped.
   */
  function GetCardsByIds(cards: seq<Card>, ids: seq<int>): (r: seq<Card>)
    ensures |r| <= |ids|
    ensures forall i :: 0 <= i < |r| ==> r[i] in cards && GetCardById(cards, r[i].id) == Some(r[i])
  {
    if ids == [] then []
    else
      match GetCardById(cards, ids[0])
      case Some(c) => [c] + GetCardsByIds(cards, ids[1..])
      case None => GetCardsByIds(cards, ids[1..])
  }

  /**
   * The deck's ids are exactly the ids that resolve, in the order given and with
   * their repetitions; together with the ensures of GetCardsByIds this fixes the deck.
   */
  lemma {:induction false} GetCardsByIdsKeepsResolvedIds(cards: seq<Card>, ids: seq<int>)
    ensures IdsOf(GetCardsByIds(cards, ids)) == Filter(ids, (id: int) => Resolves(cards, id))
  {
    if ids != [] {
      GetCardsByIdsKeepsResolvedIds(cards, ids[1..]);
      match GetCardById(cards, ids[0])
      case Some(c) =>
        assert IdsOf([c] + GetCardsByIds(cards, ids[1..]))[1..] == IdsOf(GetCardsByIds(cards, ids[1..]));
      case None =>
    }
  }

  /** A deck built from `a + b` is the deck built from `a` followed by the one from `b`. */
  lemma {:induction false} GetCardsByIdsAppend(cards: seq<Card>, a: seq<int>, b: seq<int>)
    ensures GetCardsByIds(cards, a + b) == GetCardsByIds(cards, a) + GetCardsByIds(cards, b)
  {
    if a == [] {
      assert a + b == b;
    } else {
      assert (a + b)[0] == a[0] && (a + b)[1..] == a[1..] + b;
      GetCardsByIdsAppend(cards, a[1..], b);
    }
  }

  /** When every id resolves, nothing is dropped and the deck follows the ids one for one. */
  lemma {:induction false} GetCardsByIdsAllResolve(cards: seq<Card>, ids: seq<int>)
    requires forall i :: 0 <= i < |ids| ==> Resolves(cards, ids[i])
    ensures |GetCardsByIds(cards, ids)| == |ids|
    ensures forall i :: 0 <= i < |ids| ==> GetCardsByIds(cards, ids)[i].id == ids[i]
  {
    if ids != [] {
      GetCardsByIdsAllResolve(cards, ids[1..]);
    }
  }

  /** Decks built from a well-formed catalog are well-formed. */
  lemma GetCardsByIdsWellFormed(cards: seq<Card>, ids: seq<int>)
    requires WellFormedCards(cards)
    ensures WellFormedCards(GetCardsByIds(cards, ids))
  {
    var deck := GetCardsByIds(cards, ids);
    forall i | 0 <= i < |deck| ensures WellFormedCard(deck[i]) {
      assert deck[i] in cards;
    }
  }

  // ---------------------------------------------------------------- filters

  function GetCardsByType(cards: seq<Card>, t: CardType): (r: seq<Card>)
    ensures IsSubsequence(r, cards)
    ensures forall c :: multiset(r)[c] == if c.cardType == t then multiset(cards)[c] else 0
  {
    Filter(cards, (c: Card) => c.cardType == t)
  }

  function GetCardsByRarity(cards: seq<Card>, rarity: Rarity): (r: seq<Card>)
    ensures IsSubsequence(r, cards)
    ensures forall c :: multiset(r)[c] == if c.rarity == rarity then multiset(cards)[c] else 0
  {
    Filter(cards, (c: Card) => c.rarity == rarity)
  }

  function GetCharactersByClass(characters: seq<Character>, cls: CharacterClass): (r: seq<Character>)
    ensures IsSubsequence(r, characters)
    ensures forall c :: multiset(r)[c] == if c.characterClass == cls then multiset(characters)[c] else 0
  {
    Filter(characters, (c: Character) => c.characterClass == cls)
  }

  /** The difficulty window; a falsy maximum (absent or 0) leaves it open above. */
  predicate InDifficultyRange(e: Encounter, minDiff: int, maxDiff: Option<int>)
  {
    e.difficulty >= minDiff && (!Truthy(maxDiff) || e.difficulty <= maxDiff.value)
  }

  function GetEncountersByDifficulty(encounters: seq<Encounter>, minDiff: int, maxDiff: Option<int>): (r: seq<Encounter>)
    ensures IsSubsequence(r, encounters)
    ensures forall e :: multiset(r)[e] == if InDifficultyRange(e, minDiff, maxDiff) then multiset(encounters)[e] else 0
  {
    Filter(encounters, (e: Encounter) => InDifficultyRange(e, minDiff, maxDiff))
  }

  /** A maximum of 0 is the same as no maximum. */
  lemma ZeroMaxDifficultyIsUnbounded(encounters: seq<Encounter>, minDiff: int)
    ensures GetEncountersByDifficulty(encounters, minDiff, Some(0)) == GetEncountersByDifficulty(encounters, minDiff, None)
  {
    FilterAgree(encounters, (e: Encounter) => InDifficultyRange(e, minDiff, Some(0)),
                            (e: Encounter) => InDifficultyRange(e, minDiff, None));
  }

  // ---------------------------------------------------------------- search

  /** `toLowerCase` on the ASCII letters. */
  function LowerChar(c: char): char
  {
    if 'A' <= c <= 'Z' then (c as int - 'A' as int + 'a' as int) as char else c
  }

  function ToLower(s: string): (r: string)
    ensures |r| == |s|
    ensures forall i :: 0 <= i < |s| ==> r[i] == LowerChar(s[i])
  {
    if s == [] then [] else [LowerChar(s[0])] + ToLower(s[1..])
  }

  /** `q` occurs in `s` starting at position `i`. */
  predicate OccursAt(s: string, q: string, i: nat)
  {
    i + |q| <= |s| && s[i..i + |q|] == q
  }

  /** `String.prototype.includes`. */
  predicate Includes(s: string, q: string)
    decreases |s|
  {
    (|q| <= |s| && s[..|q|] == q) || (s != [] && Includes(s[1..], q))
  }

  /** `Includes` holds exactly when `q` occurs somewhere in `s`. */
  lemma IncludesIffOccurs(s: string, q: string)
    ensures Includes(s, q) <==> exists i: nat :: OccursAt(s, q, i)
  {
    if Includes(s, q) {
      var i := IncludesAt(s, q);
    }
    if exists i: nat :: OccursAt(s, q, i) {
      var i: nat :| OccursAt(s, q, i);
      OccursIncludes(s, q, i);
    }
  }

  /** A position where an included `q` occurs. */
  lemma {:induction false} IncludesAt(s: string, q: string) returns (i: nat)
    requires Includes(s, q)
    ensures OccursAt(s, q, i)
    decreases |s|
  {
    if |q| <= |s| && s[..|q|] == q {
      i := 0;
    } else {
      var j := IncludesAt(s[1..], q);
      assert s[1..][j..j + |q|] == s[j + 1..j + 1 + |q|];
      i := j + 1;
    }
  }

  /** An occurrence anywhere is found by `Includes`. */
  lemma {:induction false} OccursIncludes(s: string, q: string, i: nat)
    requires OccursAt(s, q, i)
    ensures Includes(s, q)
    decreases i
  {
    if i > 0 {
      assert s[1..][i - 1..i - 1 + |q|] == s[i..i + |q|];
      OccursIncludes(s[1..], q, i - 1);
    } else {
      assert s[..|q|] == s[0..0 + |q|];
    }
  }

  predicate CardMatches(c: Card, lowerQuery: string)
  {
    Includes(ToLower(c.name), lowerQuery) || Includes(ToLower(c.description), lowerQuery) ||
    Includes(ToLower(CardTypeName(c.cardType)), lowerQuery) || Includes(ToLower(RarityName(c.rarity)), lowerQuery)
  }

  predicate CharacterMatches(c: Character, lowerQuery: string)
  {
    Includes(ToLower(c.name), lowerQuery) || Includes(ToLower(c.description), lowerQuery) ||
    Includes(ToLower(ClassName(c.characterClass)), lowerQuery)
  }

  predicate EncounterMatches(e: Encounter, lowerQuery: string)
  {
    Includes(ToLower(e.name), lowerQuery) || Includes(ToLower(e.description), lowerQuery) ||
    Includes(ToLower(PersonalityName(e.aiPersonality)), lowerQuery)
  }

  function SearchCards(cards: seq<Card>, query: string): (r: seq<Card>)
    ensures IsSubsequence(r, cards)
    ensures forall c :: multiset(r)[c] == if CardMatches(c, ToLower(query)) then multiset(cards)[c] else 0
  {
    var lowerQuery := ToLower(query);
    Filter(cards, (c: Card) => CardMatches(c, lowerQuery))
  }

  function SearchCharacters(characters: seq<Character>, query: string): (r: seq<Character>)
    ensures IsSubsequence(r, characters)
    ensures forall c :: multiset(r)[c] == if CharacterMatches(c, ToLower(query)) then multiset(characters)[c] else 0
  {
    var lowerQuery := ToLower(query);
    Filter(characters, (c: Character) => CharacterMatches(c, lowerQuery))
  }

  function SearchEncounters(encounters: seq<Encounter>, query: string): (r: seq<Encounter>)
    ensures IsSubsequence(r, encounters)
    ensures forall e :: multiset(r)[e] == if EncounterMatches(e, ToLower(query)) then multiset(encounters)[e] else 0
  {
    var lowerQuery := ToLower(query);
    Filter(encounters, (e: Encounter) => EncounterMatches(e, lowerQuery))
  }

  /** The empty query matches every entry, so searching for it returns the whole list. */
  lemma {:induction false} EmptySearchKeepsAllCards(cards: seq<Card>)
    ensures SearchCards(cards, "") == cards
  {
    if cards != [] {
      EmptySearchKeepsAllCards(cards[1..]);
      assert Includes(ToLower(cards[0].name), ToLower(""));
    }
  }

  // ---------------------------------------------------------------- cache state

  /** Five minutes, in milliseconds. */
  const CacheDuration: int := 5 * 60 * 1000

  /** What one table query produced: its rows, or a thrown error and its message (if it was an `Error`). */
  datatype Fetch<T> = Rows(rows: seq<T>) | Failed(message: Option<string>)

  function MessageOr(message: Option<string>, fallback: string): string
  {
    if message.Some? then message.value else fallback
  }

  /** The store holding the catalog in memory, with its cache bookkeeping. */
  class CatalogStore {
    var cards: seq<Card>
    var characters: seq<Character>
    var encounters: seq<Encounter>
    var loading: bool
    var error: Option<string>
    var lastFetched: int
    /**
     * The value the `isCacheValid` computed holds: its clock is not a reactive
     * source, so the first read after `lastFetched` changes decides it, and it is
     * kept until `lastFetched` changes again. None: the next read evaluates it.
     */
    var cacheVerdict: Option<bool>

    constructor ()
      ensures cards == [] && characters == [] && encounters == []
      ensures !loading && error == None && lastFetched == 0 && cacheVerdict == None
    {
      cards, characters, encounters := [], [], [];
      loading, error, lastFetched := false, None, 0;
      cacheVerdict := None;
    }

    predicate IsLoaded()
      reads this
    {
      |cards| > 0 && |characters| > 0 && |encounters| > 0
    }

    /** What a read of `isCacheValid` at time `now` returns: the kept verdict, or a fresh one. */
    predicate IsCacheValid(now: int)
      reads this
    {
      if cacheVerdict.Some? then cacheVerdict.value else now - lastFetched < CacheDuration
    }

    /** The kept verdict after a reuse test at `now` that reads `isCacheValid` exactly when `tested`. */
    function VerdictAfterTest(tested: bool, now: int): (v: Option<bool>)
      reads this
      ensures tested ==> v == Some(IsCacheValid(now))
      ensures !tested ==> v == cacheVerdict
    {
      if tested then Some(IsCacheValid(now)) else cacheVerdict
    }

    /** The early return of `loadAll`: a fully loaded cache that reads as valid is reused. */
    predicate LoadAllUsesCache(forceRefresh: bool, now: int)
      reads this
    {
      !forceRefresh && IsLoaded() && IsCacheValid(now)
    }

    /** A read of `isCacheValid`: evaluated only when no verdict is kept, and kept afterwards. */
    method ReadCacheValid(now: int) returns (valid: bool)
      modifies this
      ensures valid == old(IsCacheValid(now)) && cacheVerdict == Some(valid)
      ensures cards == old(cards) && characters == old(characters) && encounters == old(encounters)
      ensures loading == old(loading) && error == old(error) && lastFetched == old(lastFetched)
    {
      if cacheVerdict.None? {
        cacheVerdict := Some(now - lastFetched < CacheDuration);
      }
      valid := cacheVerdict.value;
    }

    /** `lastFetched.value = t`: a new value drops the kept verdict; the same value triggers nothing. */
    method Stamp(t: int)
      modifies this
      ensures lastFetched == t
      ensures cacheVerdict == if t == old(lastFetched) then old(cacheVerdict) else None
      ensures cards == old(cards) && characters == old(characters) && encounters == old(encounters)
      ensures loading == old(loading) && error == old(error)
    {
      if t != lastFetched {
        lastFetched := t;
        cacheVerdict := None;
      }
    }

    /**
     * `loadAll`, with the three query results passed in. Cards, characters and
     * encounters are replaced together or not at all; a failure is recorded in
     * `error` and rethrown (`ok` is false). `isCacheValid` is read only when the
     * load is not forced and the catalog is loaded (`&&` stops early), at the
     * clock of the call (`now`); a successful fetch stamps the clock once the
     * queries are back (`fetchedAt`).
     */
    method LoadAll(forceRefresh: bool, now: int, fetchedAt: int,
                   cardRows: Fetch<Card>, characterRows: Fetch<Character>, encounterRows: Fetch<Encounter>)
      returns (ok: bool)
      modifies this
      ensures old(LoadAllUsesCache(forceRefresh, now)) ==>
        ok && cards == old(cards) && characters == old(characters) && encounters == old(encounters) &&
        loading == old(loading) && error == old(error) && lastFetched == old(lastFetched) && cacheVerdict == Some(true)
      ensures !old(LoadAllUsesCache(forceRefresh, now)) ==> !loading
      ensures !old(LoadAllUsesCache(forceRefresh, now)) && cardRows.Rows? && characterRows.Rows? && encounterRows.Rows? ==>
        ok && cards == cardRows.rows && characters == characterRows.rows && encounters == encounterRows.rows &&
        lastFetched == fetchedAt && error == None &&
        cacheVerdict == (if fetchedAt == old(lastFetched)
                         then old(VerdictAfterTest(!forceRefresh && IsLoaded(), now)) else None) &&
        (IsLoaded() <==> |cardRows.rows| > 0 && |characterRows.rows| > 0 && |encounterRows.rows| > 0)
      ensures !old(LoadAllUsesCache(forceRefresh, now)) && !(cardRows.Rows? && characterRows.Rows? && encounterRows.Rows?) ==>
        !ok && cards == old(cards) && characters == old(characters) && encounters == old(encounters) &&
        lastFetched == old(lastFetched) && cacheVerdict == old(VerdictAfterTest(!forceRefresh && IsLoaded(), now)) &&
        error == Some(MessageOr(if cardRows.Failed? then cardRows.message
                                else if characterRows.Failed? then characterRows.message
                                else encounterRows.message, "Failed to load catalog"))
    {
      if !forceRefresh && IsLoaded() {
        var valid := ReadCacheValid(now);
        if valid {
          return true;
        }
      }
      loading := true;
      error := None;
      if cardRows.Failed? {
        error := Some(MessageOr(cardRows.message, "Failed to load catalog"));
        ok := false;
      } else if characterRows.Failed? {
        error := Some(MessageOr(characterRows.message, "Failed to load catalog"));
        ok := false;
      } else if encounterRows.Failed? {
        error := Some(MessageOr(encounterRows.message, "Failed to load catalog"));
        ok := false;
      } else {
        cards := cardRows.rows;
        characters := characterRows.rows;
        encounters := encounterRows.rows;
        Stamp(fetchedAt);
        ok := true;
      }
      loading := false;
    }

    /** `loadCards`: reuses a non-empty card list while `isCacheValid` reads as true. */
    method LoadCards(forceRefresh: bool, now: int, fetchedAt: int, rows: Fetch<Card>) returns (ok: bool)
      modifies this
      ensures !forceRefresh && |old(cards)| > 0 && old(IsCacheValid(now)) ==>
        ok && cards == old(cards) && characters == old(characters) && encounters == old(encounters) && loading == old(loading) &&
        error == old(error) && lastFetched == old(lastFetched) && cacheVerdict == Some(true)
      ensures forceRefresh || |old(cards)| == 0 || !old(IsCacheValid(now)) ==>
        characters == old(characters) && encounters == old(encounters) && loading == old(loading) &&
        (if rows.Rows?
         then ok && cards == rows.rows && lastFetched == fetchedAt && error == old(error) &&
              cacheVerdict == (if fetchedAt == old(lastFetched)
                               then old(VerdictAfterTest(!forceRefresh && |cards| > 0, now)) else None)
         else !ok && cards == old(cards) && lastFetched == old(lastFetched) &&
              cacheVerdict == old(VerdictAfterTest(!forceRefresh && |cards| > 0, now)) &&
              error == Some(MessageOr(rows.message, "Failed to load cards")))
    {
      if !forceRefresh && |cards| > 0 {
        var valid := ReadCacheValid(now);
        if valid {
          return true;
        }
      }
      if rows.Failed? {
        error := Some(MessageOr(rows.message, "Failed to load cards"));
        return false;
      }
      cards := rows.rows;
      Stamp(fetchedAt);
      ok := true;
    }

    /** `loadCharacters`: reuses a non-empty character list while `isCacheValid` reads as true. */
    method LoadCharacters(forceRefresh: bool, now: int, fetchedAt: int, rows: Fetch<Character>) returns (ok: bool)
      modifies this
      ensures !forceRefresh && |old(characters)| > 0 && old(IsCacheValid(now)) ==>
        ok && characters == old(characters) && cards == old(cards) && encounters == old(encounters) && loading == old(loading) &&
        error == old(error) && lastFetched == old(lastFetched) && cacheVerdict == Some(true)
      ensures forceRefresh || |old(characters)| == 0 || !old(IsCacheValid(now)) ==>
        cards == old(cards) && encounters == old(encounters) && loading == old(loading) &&
        (if rows.Rows?
         then ok && characters == rows.rows && lastFetched == fetchedAt && error == old(error) &&
              cacheVerdict == (if fetchedAt == old(lastFetched)
                               then old(VerdictAfterTest(!forceRefresh && |characters| > 0, now)) else None)
         else !ok && characters == old(characters) && lastFetched == old(lastFetched) &&
              cacheVerdict == old(VerdictAfterTest(!forceRefresh && |characters| > 0, now)) &&
              error == Some(MessageOr(rows.message, "Failed to load characters")))
    {
      if !forceRefresh && |characters| > 0 {
        var valid := ReadCacheValid(now);
        if valid {
          return true;
        }
      }
      if rows.Failed? {
        error := Some(MessageOr(rows.message, "Failed to load characters"));
        return false;
      }
      characters := rows.rows;
      Stamp(fetchedAt);
      ok := true;
    }

    /** `loadEncounters`: reuses a non-empty encounter list while `isCacheValid` reads as true. */
    method LoadEncounters(forceRefresh: bool, now: int, fetchedAt: int, rows: Fetch<Encounter>) returns (ok: bool)
      modifies this
      ensures !forceRefresh && |old(encounters)| > 0 && old(IsCacheValid(now)) ==>
        ok && encounters == old(encounters) && cards == old(cards) && characters == old(characters) && loading == old(loading) &&
        error == old(error) && lastFetched == old(lastFetched) && cacheVerdict == Some(true)
      ensures forceRefresh || |old(encounters)| == 0 || !old(IsCacheValid(now)) ==>
        cards == old(cards) && characters == old(characters) && loading == old(loading) &&
        (if rows.Rows?
         then ok && encounters == rows.rows && lastFetched == fetchedAt && error == old(error) &&
              cacheVerdict == (if fetchedAt == old(lastFetched)
                               then old(VerdictAfterTest(!forceRefresh && |encounters| > 0, now)) else None)
         else !ok && encounters == old(encounters) && lastFetched == old(lastFetched) &&
              cacheVerdict == old(VerdictAfterTest(!forceRefresh && |encounters| > 0, now)) &&
              error == Some(MessageOr(rows.message, "Failed to load encounters")))
    {
      if !forceRefresh && |encounters| > 0 {
        var valid := ReadCacheValid(now);
        if valid {
          return true;
        }
      }
      if rows.Failed? {
        error := Some(MessageOr(rows.message, "Failed to load encounters"));
        return false;
      }
      encounters := rows.rows;
      Stamp(fetchedAt);
      ok := true;
    }

    /** `clearCache`: afterwards the catalog is empty, so it no longer counts as loaded. */
    method ClearCache()
      modifies this
      ensures cards == [] && characters == [] && encounters == []
      ensures lastFetched == 0 && error == None && loading == old(loading)
      ensures cacheVerdict == if old(lastFetched) == 0 then old(cacheVerdict) else None
      ensures !IsLoaded()
      ensures forall forceRefresh: bool, now: int :: !LoadAllUsesCache(forceRefresh, now)
    {
      cards := [];
      characters := [];
      encounters := [];
      Stamp(0);
      error := None;
    }
  }

  /**
   * The kept verdict outlives the five minutes: once a load has read the cache as
   * valid, a load ten minutes after the fetch still reuses it (the queries given
   * to it all fail, so a refetch would have returned false) and the stamp stays.
   */
  method StaleCacheIsReused(t: int, cardRows: seq<Card>, characterRows: seq<Character>, encounterRows: seq<Encounter>)
    returns (reused: bool, stamp: int)
    requires |cardRows| > 0 && |characterRows| > 0 && |encounterRows| > 0
    ensures reused && stamp == t
  {
    var store := new CatalogStore();
    var ok := store.LoadAll(false, t, t, Rows(cardRows), Rows(characterRows), Rows(encounterRows));
    ok := store.LoadAll(false, t + 60 * 1000, t + 60 * 1000, Failed(None), Failed(None), Failed(None));
    reused := store.LoadAll(false, t + 10 * 60 * 1000, t + 10 * 60 * 1000, Failed(None), Failed(None), Failed(None));
    stamp := store.lastFetched;
  }

  /**
   * The five minutes only matter to the first read after a fetch: when that read
   * comes six minutes late the cache is not reused and the load queries again.
   */
  method LateFirstReadRefetches(t: int, cardRows: seq<Card>, characterRows: seq<Character>, encounterRows: seq<Encounter>)
    returns (reused: bool, stamp: int)
    requires |cardRows| > 0 && |characterRows| > 0 && |encounterRows| > 0
    ensures !reused && stamp == t
  {
    var store := new CatalogStore();
    var ok := store.LoadAll(false, t, t, Rows(cardRows), Rows(characterRows), Rows(encounterRows));
    reused := store.LoadAll(false, t + 6 * 60 * 1000, t + 6 * 60 * 1000, Failed(None), Failed(None), Failed(None));
    stamp := store.lastFetched;
  }
}
