/**
  The random draw page (Random.jsx). A draw filters its candidates, and
  unless there are none it arms an interval that shows a random candidate
  on every tick and a timeout that clears the interval, shows a last random
  candidate and ends the spin. Timers are explicit steps here: each armed
  draw is an entry of a pending list, a tick or a settle names the entry
  it belongs to, and the random index is an argument below the candidate
  count.
*/
module RandomDraw {
  import opened Wrappers
  import opened Seqs
  import opened GameData
  import Champions

  /** The "all" choice of both selectors. */
  const All: string := "Tất cả"

  /** `rarities`: the fixed relic rarity choices. */
  const Rarities: seq<string> := [All, "THƯỜNG", "HIẾM", "SỬ THI"]

  /** `regions`: "Tất cả", then each region listed by some champion, once, in first-seen order. */
  function Regions(champs: seq<Champion>): (r: seq<string>)
    ensures |r| >= 1 && r[0] == All
    ensures forall x :: x in r[1..] <==> exists c :: c in champs && c.regions.Some? && x in c.regions.value
    ensures NoDup(r[1..])
  {
    [All] + Dedup(FlatMap(champs, Champions.RegionsOf))
  }

  /** The regions after "Tất cả" keep the order in which the champion data first lists them. */
  lemma RegionsFirstSeen(champs: seq<Champion>)
    ensures var all, r := FlatMap(champs, Champions.RegionsOf), Regions(champs)[1..];
      forall i, j, k :: 0 <= i < j < |r| && 0 <= k < |all| && all[k] == r[j] ==> r[i] in all[..k]
  {
    var all := FlatMap(champs, Champions.RegionsOf);
    assert Regions(champs)[1..] == Dedup(all);
    DedupFirstSeen(all);
  }

  /** The champions a draw picks from: all of them for "Tất cả", otherwise those whose `regions` list the selection. */
  function ChampionCandidates(champs: seq<Champion>, region: string): (r: seq<Champion>)
    ensures region == All ==> r == champs
    ensures region != All ==> forall c :: c in r <==> c in champs && c.regions.Some? && region in c.regions.value
  {
    if region == All then champs else Filter(champs, (c: Champion) => Champions.InRegion(c, region))
  }

  /** The relics a draw picks from: all of them for "Tất cả", otherwise those of the selected rarity. */
  function RelicCandidates(relics: seq<Card>, rarity: string): (r: seq<Card>)
    ensures rarity == All ==> r == relics
    ensures rarity != All ==> forall c :: c in r <==> c in relics && c.rarity == Some(rarity)
  {
    if rarity == All then relics else Filter(relics, (c: Card) => c.rarity == Some(rarity))
  }

  /** The page's state; the data is fixed, the selections come from storage at mount. */
  class Page {
    const champs: seq<Champion>
    const relics: seq<Card>
    var selectedRegion: string
    var selectedRarity: string
    var displayChampion: Option<Champion>
    var displayRelic: Option<Card>
    var spinningChampion: bool
    var spinningRelic: bool
    /** The candidate lists of the champion draws whose timeout has not fired yet. */
    var championTimers: seq<seq<Champion>>
    var relicTimers: seq<seq<Card>>

    /** Armed draws have candidates from the data, and what is shown comes from the data. */
    ghost predicate Valid()
      reads this
    {
      && (forall t :: t in championTimers ==> t != [] && forall c :: c in t ==> c in champs)
      && (forall t :: t in relicTimers ==> t != [] && forall c :: c in t ==> c in relics)
      && (displayChampion.Some? ==> displayChampion.value in champs)
      && (displayRelic.Some? ==> displayRelic.value in relics)
    }

    constructor (champs: seq<Champion>, relics: seq<Card>, region: string, rarity: string)
      ensures Valid()
      ensures this.champs == champs && this.relics == relics
      ensures selectedRegion == region && selectedRarity == rarity
      ensures displayChampion.None? && displayRelic.None? && !spinningChampion && !spinningRelic
      ensures championTimers == [] && relicTimers == []
    {
      this.champs := champs;
      this.relics := relics;
      selectedRegion := region;
      selectedRarity := rarity;
      displayChampion := None;
      displayRelic := None;
      spinningChampion := false;
      spinningRelic := false;
      championTimers := [];
      relicTimers := [];
    }

    /** `disabled={isSpinningChampion || isSpinningRelic}` of both draw buttons. */
    predicate Disabled()
      reads this
      ensures Disabled() ==> spinningChampion || spinningRelic
      ensures !Disabled() ==> !spinningChampion && !spinningRelic
    {
      spinningChampion || spinningRelic
    }

    /**
      `handleRandomChampion`: with no candidates the display is cleared and
      the spin ends at once, with no timer; otherwise the spin starts and a
      new timer pair is armed, leaving every earlier one armed.
    */
    method RandomChampion()
      requires Valid()
      modifies this
      ensures Valid()
      ensures var cands := ChampionCandidates(champs, selectedRegion);
        && (cands == [] ==> displayChampion.None? && !spinningChampion && championTimers == old(championTimers))
        && (cands != [] ==> spinningChampion && displayChampion == old(displayChampion) && championTimers == old(championTimers) + [cands])
      ensures selectedRegion == old(selectedRegion) && selectedRarity == old(selectedRarity)
      ensures displayRelic == old(displayRelic) && spinningRelic == old(spinningRelic) && relicTimers == old(relicTimers)
    {
      spinningChampion := true;
      var cands := ChampionCandidates(champs, selectedRegion);
      if |cands| == 0 {
        displayChampion := None;
        spinningChampion := false;
        return;
      }
      championTimers := championTimers + [cands];
    }

    /** `handleRandomRelic`, the same steps for relics. */
    method RandomRelic()
      requires Valid()
      modifies this
      ensures Valid()
      ensures var cands := RelicCandidates(relics, selectedRarity);
        && (cands == [] ==> displayRelic.None? && !spinningRelic && relicTimers == old(relicTimers))
        && (cands != [] ==> spinningRelic && displayRelic == old(displayRelic) && relicTimers == old(relicTimers) + [cands])
      ensures selectedRegion == old(selectedRegion) && selectedRarity == old(selectedRarity)
      ensures displayChampion == old(displayChampion) && spinningChampion == old(spinningChampion) && championTimers == old(championTimers)
    {
      spinningRelic := true;
      var cands := RelicCandidates(relics, selectedRarity);
      if |cands| == 0 {
        displayRelic := None;
        spinningRelic := false;
        return;
      }
      relicTimers := relicTimers + [cands];
    }

    /** A tick of champion draw `t`: shows the candidate at the random index `i`. */
    method TickChampion(t: nat, i: nat)
      requires Valid() && t < |championTimers| && i < |championTimers[t]|
      modifies this
      ensures Valid()
      ensures displayChampion == Some(old(championTimers)[t][i])
      ensures displayChampion.value in old(championTimers)[t]
      ensures spinningChampion == old(spinningChampion) && championTimers == old(championTimers)
      ensures displayRelic == old(displayRelic) && spinningRelic == old(spinningRelic) && relicTimers == old(relicTimers)
      ensures selectedRegion == old(selectedRegion) && selectedRarity == old(selectedRarity)
    {
      assert championTimers[t] in championTimers;
      displayChampion := Some(championTimers[t][i]);
    }

    /**
      The timeout of champion draw `t`: its interval is cleared, the
      candidate at index `i` is shown and the spin ends, even when another
      champion draw is still armed.
    */
    method SettleChampion(t: nat, i: nat)
      requires Valid() && t < |championTimers| && i < |championTimers[t]|
      modifies this
      ensures Valid()
      ensures displayChampion == Some(old(championTimers)[t][i])
      ensures displayChampion.value in old(championTimers)[t]
      ensures !spinningChampion && championTimers == old(championTimers)[..t] + old(championTimers)[t + 1..]
      ensures displayRelic == old(displayRelic) && spinningRelic == old(spinningRelic) && relicTimers == old(relicTimers)
      ensures selectedRegion == old(selectedRegion) && selectedRarity == old(selectedRarity)
    {
      var cands := championTimers[t];
      var rest := championTimers[..t] + championTimers[t + 1..];
      assert cands in championTimers;
      assert forall x :: x in rest ==> x in championTimers;
      championTimers := rest;
      displayChampion := Some(cands[i]);
      spinningChampion := false;
    }

    /** A tick of relic draw `t`. */
    method TickRelic(t: nat, i: nat)
      requires Valid() && t < |relicTimers| && i < |relicTimers[t]|
      modifies this
      ensures Valid()
      ensures displayRelic == Some(old(relicTimers)[t][i])
      ensures displayRelic.value in old(relicTimers)[t]
      ensures spinningRelic == old(spinningRelic) && relicTimers == old(relicTimers)
      ensures displayChampion == old(displayChampion) && spinningChampion == old(spinningChampion) && championTimers == old(championTimers)
      ensures selectedRegion == old(selectedRegion) && selectedRarity == old(selectedRarity)
    {
      assert relicTimers[t] in relicTimers;
      displayRelic := Some(relicTimers[t][i]);
    }

    /** The timeout of relic draw `t`. */
    method SettleRelic(t: nat, i: nat)
      requires Valid() && t < |relicTimers| && i < |relicTimers[t]|
      modifies this
      ensures Valid()
      ensures displayRelic == Some(old(relicTimers)[t][i])
      ensures displayRelic.value in old(relicTimers)[t]
      ensures !spinningRelic && relicTimers == old(relicTimers)[..t] + old(relicTimers)[t + 1..]
      ensures displayChampion == old(displayChampion) && spinningChampion == old(spinningChampion) && championTimers == old(championTimers)
      ensures selectedRegion == old(selectedRegion) && selectedRarity == old(selectedRarity)
    {
      var cands := relicTimers[t];
      var rest := relicTimers[..t] + relicTimers[t + 1..];
      assert cands in relicTimers;
      assert forall x :: x in rest ==> x in relicTimers;
      relicTimers := rest;
      displayRelic := Some(cands[i]);
      spinningRelic := false;
    }

    /** A click on "Random Tướng": ignored while either draw spins. */
    method ClickChampion()
      requires Valid()
      modifies this
      ensures Valid()
      ensures old(Disabled()) ==> unchanged(this)
      ensures !old(Disabled()) ==> var cands := ChampionCandidates(champs, selectedRegion);
        && (cands == [] ==> displayChampion.None? && !spinningChampion && championTimers == old(championTimers))
        && (cands != [] ==> spinningChampion && displayChampion == old(displayChampion) && championTimers == old(championTimers) + [cands])
        && selectedRegion == old(selectedRegion) && selectedRarity == old(selectedRarity)
        && displayRelic == old(displayRelic) && !spinningRelic && relicTimers == old(relicTimers)
        && (Disabled() <==> cands != [])
    {
      if !Disabled() {
        RandomChampion();
      }
    }

    /** A click on "Random Cổ Vật": ignored while either draw spins. */
    method ClickRelic()
      requires Valid()
      modifies this
      ensures Valid()
      ensures old(Disabled()) ==> unchanged(this)
      ensures !old(Disabled()) ==> var cands := RelicCandidates(relics, selectedRarity);
        && (cands == [] ==> displayRelic.None? && !spinningRelic && relicTimers == old(relicTimers))
        && (cands != [] ==> spinningRelic && displayRelic == old(displayRelic) && relicTimers == old(relicTimers) + [cands])
        && selectedRegion == old(selectedRegion) && selectedRarity == old(selectedRarity)
        && displayChampion == old(displayChampion) && !spinningChampion && championTimers == old(championTimers)
        && (Disabled() <==> cands != [])
    {
      if !Disabled() {
        RandomRelic();
      }
    }

    /**
      The mount effect, re-run whenever either handler changes, that is
      whenever either selection changes: both draws start again and no
      armed timer is cleared.
    */
    method Effect()
      requires Valid()
      modifies this
      ensures Valid()
      ensures var cc, rc := ChampionCandidates(champs, selectedRegion), RelicCandidates(relics, selectedRarity);
        && championTimers == old(championTimers) + (if cc == [] then [] else [cc])
        && relicTimers == old(relicTimers) + (if rc == [] then [] else [rc])
        && (spinningChampion <==> cc != []) && (spinningRelic <==> rc != [])
        && (cc == [] ==> displayChampion.None?) && (cc != [] ==> displayChampion == old(displayChampion))
        && (rc == [] ==> displayRelic.None?) && (rc != [] ==> displayRelic == old(displayRelic))
      ensures selectedRegion == old(selectedRegion) && selectedRarity == old(selectedRarity)
    {
      RandomChampion();
      RandomRelic();
    }

    /** Choosing a region: the selection changes and the effect runs both draws. */
    method SelectRegion(region: string)
      requires Valid()
      modifies this
      ensures Valid()
      ensures selectedRegion == region && selectedRarity == old(selectedRarity)
      ensures var cc, rc := ChampionCandidates(champs, region), RelicCandidates(relics, selectedRarity);
        && championTimers == old(championTimers) + (if cc == [] then [] else [cc])
        && relicTimers == old(relicTimers) + (if rc == [] then [] else [rc])
        && (spinningChampion <==> cc != []) && (spinningRelic <==> rc != [])
        && (cc == [] ==> displayChampion.None?) && (cc != [] ==> displayChampion == old(displayChampion))
        && (rc == [] ==> displayRelic.None?) && (rc != [] ==> displayRelic == old(displayRelic))
    {
      selectedRegion := region;
      Effect();
    }

    /** Choosing a rarity: the selection changes and the effect runs both draws. */
    method SelectRarity(rarity: string)
      requires Valid()
      modifies this
      ensures Valid()
      ensures selectedRarity == rarity && selectedRegion == old(selectedRegion)
      ensures var cc, rc := ChampionCandidates(champs, selectedRegion), RelicCandidates(relics, rarity);
        && championTimers == old(championTimers) + (if cc == [] then [] else [cc])
        && relicTimers == old(relicTimers) + (if rc == [] then [] else [rc])
        && (spinningChampion <==> cc != []) && (spinningRelic <==> rc != [])
        && (cc == [] ==> displayChampion.None?) && (cc != [] ==> displayChampion == old(displayChampion))
        && (rc == [] ==> displayRelic.None?) && (rc != [] ==> displayRelic == old(displayRelic))
    {
      selectedRarity := rarity;
      Effect();
    }
  }
}
