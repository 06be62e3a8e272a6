/**
 Loading land units onto ships and other land units (load_land_ship,
 load_land_land, land_loadable), and what it does to the carrier relation.

 A unit's record says which ship or land unit carries it.  As with commodities, a
 command works on a copy of the carrier that other commands may outdate while it
 waits at its prompt.
 */
module Carriers {

  import opened GameTypes

  datatype Ship = Ship(own: nat, at: nat, maxLand: nat, sub: bool, supply: bool)

  /** ship and land are the carrier's number, negative when there is none. */
  datatype Land = Land(own: nat, at: nat, ship: int, land: int, harden: nat,
                       maxLand: nat, light: bool, heavy: bool, spy: bool)
  {
    predicate Carried() {
      ship >= 0 || land >= 0
    }
  }

  // Cargo lists

  function OnShip(lands: seq<Land>, s: int): set<nat> {
    set u: nat | u < |lands| && lands[u].ship == s
  }

  function OnLand(lands: seq<Land>, c: int): set<nat> {
    set u: nat | u < |lands| && lands[u].land == c
  }

  // Giving units away

  /** lnd_prewrite: a dead unit is off its carrier, a carried one is not fortified. */
  function Prewrite(l: Land): Land {
    if l.own == 0 then l.(ship := -1, land := -1) else if l.Carried() then l.(harden := 0) else l
  }

  function Given(l: Land, to: nat): Land {
    Prewrite(l.(own := to))
  }

  function Foreign(lands: seq<Land>, to: nat): set<nat> {
    set u: nat | u < |lands| && lands[u].own != to
  }

  /** Some units have been given away; nothing else has happened. */
  ghost predicate SomeGiven(lands: seq<Land>, lands': seq<Land>, to: nat) {
    && |lands'| == |lands|
    && forall u :: 0 <= u < |lands| ==> lands'[u] == lands[u] || lands'[u] == Given(lands[u], to)
  }

  /** unit_give_away: a unit and all it carries, stopping at units the recipient already owns. */
  function GiveAway(lands: seq<Land>, u: nat, to: nat): (lands': seq<Land>)
    requires u < |lands|
    ensures SomeGiven(lands, lands', to) && lands'[u].own == to
    decreases Foreign(lands, to), 0
  {
    if lands[u].own == to then lands
    else
      var given := lands[u := Given(lands[u], to)];
      assert Foreign(given, to) == Foreign(lands, to) - {u};
      assert u in Foreign(lands, to);
      GiveCargo(given, u, to, 0)
  }

  function GiveCargo(lands: seq<Land>, u: nat, to: nat, from: nat): (lands': seq<Land>)
    requires from <= |lands| && u < |lands|
    ensures SomeGiven(lands, lands', to)
    decreases Foreign(lands, to), |lands| - from + 1
  {
    if from == |lands| then lands
    else if lands[from].land == u then
      var given := GiveAway(lands, from, to);
      assert Foreign(given, to) <= Foreign(lands, to);
      GiveCargo(given, u, to, from + 1)
    else
      GiveCargo(lands, u, to, from + 1)
  }

  /** A unit changes hands together with the units on it. */
  ghost predicate Together(lands: seq<Land>, lands': seq<Land>, to: nat) {
    && |lands'| == |lands|
    && forall u, v :: 0 <= u < |lands| && 0 <= v < |lands| && lands[u].own != to && lands'[u].own == to
                      && lands[v].land == u
         ==> lands'[v].own == to
  }

  lemma {:induction false} GivenTogether(lands: seq<Land>, u: nat, to: nat)
    requires u < |lands|
    ensures Together(lands, GiveAway(lands, u, to), to)
    decreases Foreign(lands, to), 0
  {
    if lands[u].own != to {
      var given := lands[u := Given(lands[u], to)];
      assert Foreign(given, to) == Foreign(lands, to) - {u};
      assert u in Foreign(lands, to);
      CargoGivenTogether(given, u, to, 0);
    }
  }

  ghost predicate CargoGiven(lands: seq<Land>, lands': seq<Land>, u: nat, to: nat, from: nat) {
    && |lands'| == |lands|
    && forall v :: from <= v < |lands| && lands[v].land == u ==> lands'[v].own == to
  }

  lemma {:induction false} CargoGivenTogether(lands: seq<Land>, u: nat, to: nat, from: nat)
    requires from <= |lands| && u < |lands|
    ensures Together(lands, GiveCargo(lands, u, to, from), to)
    ensures CargoGiven(lands, GiveCargo(lands, u, to, from), u, to, from)
    decreases Foreign(lands, to), |lands| - from + 1
  {
    hide Together, Prewrite, SomeGiven, CargoGiven;
    if from == |lands| {
      NoneGiven(lands, u, to);
    } else if lands[from].land == u {
      var given := GiveAway(lands, from, to);
      LessForeign(lands, given, to);
      GivenTogether(lands, from, to);
      CargoGivenTogether(given, u, to, from + 1);
      GivenTwice(lands, given, GiveCargo(given, u, to, from + 1), to);
      OneMoreGiven(lands, given, GiveCargo(given, u, to, from + 1), u, to, from);
    } else {
      CargoGivenTogether(lands, u, to, from + 1);
      SkipOne(lands, GiveCargo(lands, u, to, from + 1), u, to, from);
    }
  }

  lemma NoneGiven(lands: seq<Land>, u: nat, to: nat)
    ensures Together(lands, lands, to) && CargoGiven(lands, lands, u, to, |lands|)
  {
  }

  lemma LessForeign(lands: seq<Land>, lands': seq<Land>, to: nat)
    requires SomeGiven(lands, lands', to)
    ensures |lands'| == |lands| && Foreign(lands', to) <= Foreign(lands, to)
  {
  }

  lemma GivenTwice(lands: seq<Land>, mid: seq<Land>, last: seq<Land>, to: nat)
    requires SomeGiven(lands, mid, to) && SomeGiven(mid, last, to) && Together(lands, mid, to)
             && Together(mid, last, to)
    ensures Together(lands, last, to)
  {
    hide Prewrite;
    forall u, v | 0 <= u < |lands| && 0 <= v < |lands| && lands[u].own != to && last[u].own == to && lands[v].land == u
      ensures last[v].own == to
    {
      assert mid[v] == lands[v] || mid[v] == Given(lands[v], to);
      GivenOwn(lands[v], to);
      GivenOwn(mid[v], to);
    }
  }

  lemma GivenOwn(l: Land, to: nat)
    ensures Given(l, to).own == to
  {
  }

  lemma OneMoreGiven(lands: seq<Land>, mid: seq<Land>, last: seq<Land>, u: nat, to: nat, from: nat)
    requires from < |lands| && SomeGiven(lands, mid, to) && SomeGiven(mid, last, to)
    requires mid[from].own == to && CargoGiven(mid, last, u, to, from + 1)
    ensures CargoGiven(lands, last, u, to, from)
  {
    hide Prewrite;
    forall v | from <= v < |lands| && lands[v].land == u
      ensures last[v].own == to
    {
      assert mid[v] == lands[v] || mid[v] == Given(lands[v], to);
      GivenOwn(lands[v], to);
      GivenOwn(mid[v], to);
    }
  }

  lemma SkipOne(lands: seq<Land>, last: seq<Land>, u: nat, to: nat, from: nat)
    requires from < |lands| && CargoGiven(lands, last, u, to, from + 1) && lands[from].land != u
    ensures CargoGiven(lands, last, u, to, from)
  {
  }

  // The carrier relation

  /** Carriers rank above what they carry: the relation has no cycles. */
  ghost predicate Ranked(lands: seq<Land>, rank: seq<int>) {
    && |rank| == |lands|
    && forall u :: 0 <= u < |lands| && lands[u].land >= 0 ==> lands[u].land < |lands| && rank[u] < rank[lands[u].land]
  }

  /** The unit k steps up from u, or a negative number when there are not so many carriers. */
  function Up(lands: seq<Land>, u: int, k: nat): int
    decreases k
  {
    if k == 0 || !(0 <= u < |lands|) then u else Up(lands, lands[u].land, k - 1)
  }

  /** No unit carries itself, directly or through others. */
  ghost predicate Acyclic(lands: seq<Land>) {
    forall u: nat, k: nat :: u < |lands| && k > 0 ==> Up(lands, u, k) != u
  }

  lemma {:induction false} RankGrows(lands: seq<Land>, rank: seq<int>, u: nat, k: nat)
    requires Ranked(lands, rank) && u < |lands|
    ensures Up(lands, u, k) < |lands|
    ensures k > 0 && Up(lands, u, k) >= 0 ==> rank[Up(lands, u, k)] > rank[u]
    decreases k
  {
    if k > 0 && lands[u].land >= 0 {
      RankGrows(lands, rank, lands[u].land, k - 1);
    }
  }

  lemma RankedIsAcyclic(lands: seq<Land>, rank: seq<int>)
    requires Ranked(lands, rank)
    ensures Acyclic(lands)
  {
    forall u: nat, k: nat | u < |lands| && k > 0
      ensures Up(lands, u, k) != u
    {
      RankGrows(lands, rank, u, k);
    }
  }

  /** Giving away reaches only the unit and units ranked below it. */
  lemma {:induction false} GivesOnlyBelow(lands: seq<Land>, rank: seq<int>, u: nat, to: nat, v: nat)
    requires Ranked(lands, rank) && u < |lands| && v < |lands| && v != u && rank[v] >= rank[u]
    ensures GiveAway(lands, u, to)[v] == lands[v]
    decreases Foreign(lands, to), 0
  {
    if lands[u].own != to {
      var given := lands[u := Given(lands[u], to)];
      assert Foreign(given, to) == Foreign(lands, to) - {u};
      assert u in Foreign(lands, to);
      CargoGivesOnlyBelow(given, rank, u, to, 0, v);
    }
  }

  lemma {:induction false} CargoGivesOnlyBelow(lands: seq<Land>, rank: seq<int>, u: nat, to: nat, from: nat, v: nat)
    requires Ranked(lands, rank) && u < |lands| && from <= |lands| && v < |lands| && rank[v] >= rank[u]
    ensures GiveCargo(lands, u, to, from)[v] == lands[v]
    decreases Foreign(lands, to), |lands| - from + 1
  {
    if from < |lands| {
      if lands[from].land == u {
        var given := GiveAway(lands, from, to);
        LessForeign(lands, given, to);
        GivesOnlyBelow(lands, rank, from, to, v);
        CargoGivesOnlyBelow(given, rank, u, to, from + 1, v);
      } else {
        CargoGivesOnlyBelow(lands, rank, u, to, from + 1, v);
      }
    }
  }

  // What loading keeps

  function ShipRoom(sp: Ship): nat {
    if SpiesOnly(sp) then 2 else sp.maxLand
  }

  predicate SpiesOnly(sp: Ship) {
    sp.sub && sp.maxLand == 0
  }

  /** Light units go on any ship, others only on supply ships that are not submarines. */
  predicate Fits(sp: Ship, l: Land) {
    l.light || (sp.supply && !sp.sub)
  }

  /** A unit is carried by at most one ship or unit, which is where it is and may carry it. */
  ghost predicate PlacedOk(ships: seq<Ship>, lands: seq<Land>, l: Land) {
    && (l.ship < 0 || l.land < 0)
    && (l.ship >= 0 ==> l.ship < |ships| && l.at == ships[l.ship].at
                        && Fits(ships[l.ship], l) && (SpiesOnly(ships[l.ship]) ==> l.spy))
    && (l.land >= 0 ==> l.land < |lands| && l.at == lands[l.land].at)
    && (l.Carried() ==> !l.heavy && l.harden == 0 && l.own != 0)
  }

  ghost predicate Placed(ships: seq<Ship>, lands: seq<Land>) {
    forall u :: 0 <= u < |lands| ==> PlacedOk(ships, lands, lands[u])
  }

  ghost predicate Roomy(ships: seq<Ship>, lands: seq<Land>) {
    && (forall s :: 0 <= s < |ships| ==> |OnShip(lands, s)| <= ShipRoom(ships[s]))
    && (forall c :: 0 <= c < |lands| ==> |OnLand(lands, c)| <= lands[c].maxLand)
  }

  ghost predicate Forest(lands: seq<Land>) {
    exists rank :: Ranked(lands, rank)
  }

  ghost predicate Good(ships: seq<Ship>, lands: seq<Land>) {
    Placed(ships, lands) && Roomy(ships, lands) && Forest(lands)
  }

  /** Units may have left their carriers or changed hands, but are otherwise the same. */
  ghost predicate Looser(lands: seq<Land>, lands': seq<Land>) {
    && |lands'| == |lands|
    && forall u :: 0 <= u < |lands| ==> LooserUnit(lands[u], lands'[u])
  }

  ghost predicate LooserUnit(l: Land, l': Land) {
    && l' == l.(own := l'.own, ship := l'.ship, land := l'.land, harden := l'.harden)
    && l'.harden <= l.harden
    && (if l'.Carried() then l'.ship == l.ship && l'.land == l.land && l'.own != 0 else l'.ship < 0 && l'.land < 0)
  }

  lemma LooserKeepsPlaced(ships: seq<Ship>, lands: seq<Land>, lands': seq<Land>)
    requires Placed(ships, lands) && Looser(lands, lands')
    ensures Placed(ships, lands')
  {
    forall u | 0 <= u < |lands|
      ensures PlacedOk(ships, lands', lands'[u])
    {
      assert PlacedOk(ships, lands, lands[u]) && LooserUnit(lands[u], lands'[u]);
      if lands'[u].land >= 0 {
        assert LooserUnit(lands[lands[u].land], lands'[lands[u].land]);
      }
    }
  }

  lemma Fewer(a: set<nat>, b: set<nat>)
    requires a <= b
    ensures |a| <= |b|
  {
    assert b == a + (b - a);
  }

  lemma LooserKeepsRoom(ships: seq<Ship>, lands: seq<Land>, lands': seq<Land>)
    requires Roomy(ships, lands) && Looser(lands, lands')
    ensures Roomy(ships, lands')
  {
    forall s | 0 <= s < |ships|
      ensures |OnShip(lands', s)| <= ShipRoom(ships[s])
    {
      Fewer(OnShip(lands', s), OnShip(lands, s));
    }
    forall c | 0 <= c < |lands'|
      ensures |OnLand(lands', c)| <= lands'[c].maxLand
    {
      Fewer(OnLand(lands', c), OnLand(lands, c));
    }
  }

  lemma LooserKeepsRanks(lands: seq<Land>, lands': seq<Land>, rank: seq<int>)
    requires Ranked(lands, rank) && Looser(lands, lands')
    ensures Ranked(lands', rank)
  {
  }

  lemma LooserKeepsGood(ships: seq<Ship>, lands: seq<Land>, lands': seq<Land>)
    requires Good(ships, lands) && Looser(lands, lands')
    ensures Good(ships, lands')
  {
    hide Placed, Roomy, Ranked, Looser;
    LooserKeepsPlaced(ships, lands, lands');
    LooserKeepsRoom(ships, lands, lands');
    var rank :| Ranked(lands, rank);
    LooserKeepsRanks(lands, lands', rank);
  }

  lemma GivingIsLooser(ships: seq<Ship>, lands: seq<Land>, u: nat, to: nat)
    requires Placed(ships, lands) && u < |lands|
    ensures Looser(lands, GiveAway(lands, u, to))
  {
    hide Fits, SpiesOnly;
    var lands' := GiveAway(lands, u, to);
    forall v | 0 <= v < |lands|
      ensures LooserUnit(lands[v], lands'[v])
    {
      assert PlacedOk(ships, lands, lands[v]);
    }
  }

  // Putting a unit onto a carrier

  /** A unit that may be loaded; carriers and their capacity are another matter. */
  predicate Loadable(lands: seq<Land>, u: nat)
    requires u < |lands|
  {
    !lands[u].Carried() && OnLand(lands, u) == {} && !lands[u].heavy
  }

  /** Changing one record that stays where it is leaves all others well placed. */
  lemma ReplacedKeepsPlaced(ships: seq<Ship>, lands: seq<Land>, u: nat, l: Land)
    requires Placed(ships, lands) && u < |lands| && PlacedOk(ships, lands, l) && l.at == lands[u].at
    ensures Placed(ships, lands[u := l])
  {
    hide Fits, SpiesOnly;
    var lands' := lands[u := l];
    forall v | 0 <= v < |lands|
      ensures PlacedOk(ships, lands', lands'[v])
    {
      assert PlacedOk(ships, lands, lands[v]);
    }
  }

  lemma OntoShipKeepsRoom(ships: seq<Ship>, lands: seq<Land>, u: nat, s: nat)
    requires Roomy(ships, lands) && u < |lands| && s < |ships|
    requires |OnShip(lands, s)| < ShipRoom(ships[s])
    ensures Roomy(ships, lands[u := lands[u].(ship := s, harden := 0)])
  {
    hide ShipRoom;
    var lands' := lands[u := lands[u].(ship := s, harden := 0)];
    forall s' | 0 <= s' < |ships|
      ensures |OnShip(lands', s')| <= ShipRoom(ships[s'])
    {
      Fewer(OnShip(lands', s'), OnShip(lands, s') + if s' == s then {u} else {});
    }
    forall c | 0 <= c < |lands'|
      ensures |OnLand(lands', c)| <= lands'[c].maxLand
    {
      assert OnLand(lands', c) == OnLand(lands, c);
    }
  }

  lemma OntoShipKeepsGood(ships: seq<Ship>, lands: seq<Land>, u: nat, s: nat)
    requires Good(ships, lands) && u < |lands| && s < |ships| && !lands[u].Carried() && !lands[u].heavy
             && lands[u].own != 0
    requires lands[u].at == ships[s].at && Fits(ships[s], lands[u]) && (SpiesOnly(ships[s]) ==> lands[u].spy)
    requires |OnShip(lands, s)| < ShipRoom(ships[s])
    ensures Good(ships, lands[u := lands[u].(ship := s, harden := 0)])
  {
    hide Placed, Roomy, ShipRoom, SpiesOnly, OnShip, Ranked;
    var l := lands[u].(ship := s, harden := 0);
    ReplacedKeepsPlaced(ships, lands, u, l);
    OntoShipKeepsRoom(ships, lands, u, s);
    var rank :| Ranked(lands, rank);
    OntoShipKeepsRanks(lands, u, s, rank);
  }

  lemma OntoShipKeepsRanks(lands: seq<Land>, u: nat, s: nat, rank: seq<int>)
    requires Ranked(lands, rank) && u < |lands|
    ensures Ranked(lands[u := lands[u].(ship := s, harden := 0)], rank)
  {
  }

  lemma FitsSame(sp: Ship, l: Land, l': Land)
    requires l'.light == l.light
    ensures Fits(sp, l') == Fits(sp, l)
  {
  }

  /** A rank in which a unit that carries nothing comes below all others. */
  lemma LeafToBottom(lands: seq<Land>, u: nat) returns (rank: seq<int>)
    requires Forest(lands) && u < |lands| && OnLand(lands, u) == {}
    ensures Ranked(lands, rank) && forall v :: 0 <= v < |lands| && v != u ==> rank[u] < rank[v]
  {
    var was :| Ranked(lands, was);
    var low := Lowest(was);
    rank := was[u := low - 1];
    forall v | 0 <= v < |lands| && lands[v].land >= 0
      ensures rank[v] < rank[lands[v].land]
    {
      assert v !in OnLand(lands, u);
    }
  }

  function Lowest(s: seq<int>): (low: int)
    ensures forall i :: 0 <= i < |s| ==> low <= s[i]
  {
    if s == [] then 0
    else
      var low := Lowest(s[..|s| - 1]);
      assert forall i :: 0 <= i < |s| - 1 ==> s[i] == s[..|s| - 1][i];
      if s[|s| - 1] < low then s[|s| - 1] else low
  }

  lemma OntoLandKeepsRoom(ships: seq<Ship>, lands: seq<Land>, u: nat, c: nat)
    requires Roomy(ships, lands) && u < |lands| && c < |lands| && |OnLand(lands, c)| < lands[c].maxLand
    ensures Roomy(ships, lands[u := lands[u].(land := c, harden := 0)])
  {
    hide ShipRoom;
    var lands' := lands[u := lands[u].(land := c, harden := 0)];
    forall s | 0 <= s < |ships|
      ensures |OnShip(lands', s)| <= ShipRoom(ships[s])
    {
      assert OnShip(lands', s) == OnShip(lands, s);
    }
    forall c' | 0 <= c' < |lands'|
      ensures |OnLand(lands', c')| <= lands'[c'].maxLand
    {
      Fewer(OnLand(lands', c'), OnLand(lands, c') + if c' == c then {u} else {});
    }
  }

  /** The unit to load carries nothing, so no cycle can close, whatever the new carrier is itself on. */
  lemma OntoLandKeepsGood(ships: seq<Ship>, lands: seq<Land>, u: nat, c: nat)
    requires Good(ships, lands) && u < |lands| && c < |lands| && u != c && Loadable(lands, u) && lands[u].own != 0
    requires lands[u].at == lands[c].at && |OnLand(lands, c)| < lands[c].maxLand
    ensures Good(ships, lands[u := lands[u].(land := c, harden := 0)])
  {
    hide Placed, Roomy, ShipRoom, SpiesOnly, Fits, OnLand, Ranked;
    ReplacedKeepsPlaced(ships, lands, u, lands[u].(land := c, harden := 0));
    OntoLandKeepsRoom(ships, lands, u, c);
    var rank := LeafToBottom(lands, u);
    OntoLandKeepsRanks(lands, u, c, rank);
  }

  lemma OntoLandKeepsRanks(lands: seq<Land>, u: nat, c: nat, rank: seq<int>)
    requires Ranked(lands, rank) && u < |lands| && c < |lands| && rank[u] < rank[c]
    ensures Ranked(lands[u := lands[u].(land := c, harden := 0)], rank)
  {
  }

  // One unit at a time

  predicate Controls(p: Player, l: Land) {
    p.god || l.own == p.cnum
  }

  /** The unit may be loaded onto the ship as it was read, room permitting (lines 581-606). */
  predicate LoadableOnto(lands: seq<Land>, p: Player, sp: Ship, u: nat)
    requires u < |lands|
  {
    && Controls(p, lands[u]) && Loadable(lands, u) && (SpiesOnly(sp) ==> lands[u].spy)
    && sp.at == lands[u].at && Fits(sp, lands[u])
  }

  /** Lines 608-629: load one unit onto a ship; full ends the command's loop. */
  function LoadOnShip(lands: seq<Land>, p: Player, s: nat, sp: Ship, u: nat): (r: (seq<Land>, bool))
    requires u < |lands|
    ensures |r.0| == |lands|
  {
    if !LoadableOnto(lands, p, sp, u) then (lands, false)
    else if |OnShip(lands, s)| >= ShipRoom(sp) then (lands, true)
    else
      var given := GiveAway(lands, u, sp.own);
      (given[u := Prewrite(given[u].(ship := s, harden := 0))], false)
  }

  /** Lines 591-595, 600-607 and 640-650. */
  function UnloadFromShip(lands: seq<Land>, p: Player, s: nat, sp: Ship, sectOwn: nat, u: nat): (lands': seq<Land>)
    requires u < |lands|
    ensures |lands'| == |lands|
  {
    var l := lands[u];
    if !Controls(p, l) || l.ship != s || l.land > -1 || !Fits(sp, l) then lands
    else
      // Spies are unloaded quietly
      var given := if l.spy then lands else GiveAway(lands, u, sectOwn);
      given[u := Prewrite(given[u].(ship := -1))]
  }

  /** The unit may be loaded onto the land unit as it was read, room permitting (lines 898-916). */
  predicate LoadableOntoLand(lands: seq<Land>, p: Player, c: nat, lp: Land, u: nat)
    requires u < |lands|
  {
    Controls(p, lands[u]) && u != c && Loadable(lands, u) && lp.at == lands[u].at
  }

  /** Lines 918-935: load one unit onto another. */
  function LoadOnLand(lands: seq<Land>, p: Player, c: nat, lp: Land, u: nat): (r: (seq<Land>, bool))
    requires u < |lands|
    ensures |r.0| == |lands|
  {
    if !LoadableOntoLand(lands, p, c, lp, u) then (lands, false)
    else if |OnLand(lands, c)| >= lp.maxLand then (lands, true)
    else
      var given := GiveAway(lands, u, lp.own);
      (given[u := Prewrite(given[u].(land := c, harden := 0))], false)
  }

  /** Lines 910-914 and 940-946. */
  function UnloadFromLand(lands: seq<Land>, p: Player, c: nat, sectOwn: nat, u: nat): (lands': seq<Land>)
    requires u < |lands|
    ensures |lands'| == |lands|
  {
    var l := lands[u];
    if !Controls(p, l) || l.land != c || l.ship > -1 then lands
    else
      var given := GiveAway(lands, u, sectOwn);
      given[u := Prewrite(given[u].(land := -1))]
  }

  lemma FewerCarried(lands: seq<Land>, lands': seq<Land>, c: nat)
    requires Looser(lands, lands')
    ensures OnShip(lands', c) <= OnShip(lands, c) && |OnShip(lands', c)| <= |OnShip(lands, c)|
    ensures OnLand(lands', c) <= OnLand(lands, c) && |OnLand(lands', c)| <= |OnLand(lands, c)|
  {
    Fewer(OnShip(lands', c), OnShip(lands, c));
    Fewer(OnLand(lands', c), OnLand(lands, c));
  }

  /** A unit that is about to be loaded can be given to the carrier's owner first. */
  lemma GivenIsLoadable(ships: seq<Ship>, lands: seq<Land>, u: nat, to: nat)
    requires Good(ships, lands) && u < |lands| && Loadable(lands, u)
    ensures var given := GiveAway(lands, u, to);
            Good(ships, given) && Looser(lands, given) && Loadable(given, u) && given[u].own == to
  {
    hide Placed, Roomy, Forest, OnLand;
    var given := GiveAway(lands, u, to);
    GivingIsLooser(ships, lands, u, to);
    LooserKeepsGood(ships, lands, given);
    FewerCarried(lands, given, u);
    assert LooserUnit(lands[u], given[u]);
  }

  lemma LoadOnShipKeepsGood(ships: seq<Ship>, lands: seq<Land>, p: Player, s: nat, u: nat)
    requires Good(ships, lands) && u < |lands| && s < |ships| && ships[s].own != 0
    ensures Good(ships, LoadOnShip(lands, p, s, ships[s], u).0)
  {
    hide Good, OnShip, OnLand, ShipRoom, SpiesOnly, Fits, Looser;
    var sp := ships[s];
    if LoadableOnto(lands, p, sp, u) && |OnShip(lands, s)| < ShipRoom(sp) {
      var given := GiveAway(lands, u, sp.own);
      GivenIsLoadable(ships, lands, u, sp.own);
      FewerCarried(lands, given, s);
      LooserAt(lands, given, u);
      FitsSame(sp, lands[u], given[u]);
      OntoShipKeepsGood(ships, given, u, s);
    }
  }

  lemma LooserAt(lands: seq<Land>, lands': seq<Land>, u: nat)
    requires Looser(lands, lands') && u < |lands|
    ensures |lands'| == |lands| && LooserUnit(lands[u], lands'[u])
  {
  }

  lemma LoadOnLandKeepsGood(ships: seq<Ship>, lands: seq<Land>, p: Player, c: nat, u: nat)
    requires Good(ships, lands) && u < |lands| && c < |lands| && lands[c].own != 0
    ensures Good(ships, LoadOnLand(lands, p, c, lands[c], u).0)
    ensures LoadOnLand(lands, p, c, lands[c], u).0[c] == lands[c]
  {
    hide Placed, Roomy, Ranked, OnShip, OnLand, Looser;
    var lp := lands[c];
    if LoadableOntoLand(lands, p, c, lp, u) && |OnLand(lands, c)| < lp.maxLand {
      var given := GiveAway(lands, u, lp.own);
      GivenIsLoadable(ships, lands, u, lp.own);
      FewerCarried(lands, given, c);
      LooserAt(lands, given, u);
      var rank := LeafToBottom(lands, u);
      GivesOnlyBelow(lands, rank, u, lp.own, c);
      OntoLandKeepsGood(ships, given, u, c);
    }
  }

  /** Taking a unit off its carrier keeps everything in order. */
  lemma TakenOffKeepsGood(ships: seq<Ship>, lands: seq<Land>, u: nat, l: Land)
    requires Good(ships, lands) && u < |lands| && LooserUnit(lands[u], l)
    ensures Good(ships, lands[u := l])
  {
    hide Roomy, Forest, Fits, SpiesOnly;
    forall v | 0 <= v < |lands|
      ensures LooserUnit(lands[v], lands[u := l][v])
    {
      assert PlacedOk(ships, lands, lands[v]);
    }
    LooserKeepsGood(ships, lands, lands[u := l]);
  }

  lemma UnloadFromShipKeepsGood(ships: seq<Ship>, lands: seq<Land>, p: Player, s: nat, sp: Ship, sectOwn: nat, u: nat)
    requires Good(ships, lands) && u < |lands|
    ensures Good(ships, UnloadFromShip(lands, p, s, sp, sectOwn, u))
  {
    hide Placed, Roomy, Forest, Looser, Fits;
    var l := lands[u];
    if Controls(p, l) && l.ship == s && l.land < 0 && Fits(sp, l) {
      GivingIsLooser(ships, lands, u, sectOwn);
      var given := if l.spy then lands else GiveAway(lands, u, sectOwn);
      if !l.spy {
        LooserKeepsGood(ships, lands, given);
        LooserAt(lands, given, u);
      }
      TakenOffKeepsGood(ships, given, u, Prewrite(given[u].(ship := -1)));
    }
  }

  lemma UnloadFromLandKeepsGood(ships: seq<Ship>, lands: seq<Land>, p: Player, c: nat, sectOwn: nat, u: nat)
    requires Good(ships, lands) && u < |lands| && c < |lands|
    ensures Good(ships, UnloadFromLand(lands, p, c, sectOwn, u))
    ensures UnloadFromLand(lands, p, c, sectOwn, u)[c] == lands[c]
  {
    hide Placed, Roomy, Looser;
    var l := lands[u];
    if Controls(p, l) && l.land == c && l.ship < 0 {
      GivingIsLooser(ships, lands, u, sectOwn);
      var given := GiveAway(lands, u, sectOwn);
      LooserKeepsGood(ships, lands, given);
      LooserAt(lands, given, u);
      TakenOffKeepsGood(ships, given, u, Prewrite(given[u].(land := -1)));
      var rank :| Ranked(lands, rank);
      GivesOnlyBelow(lands, rank, u, sectOwn, c);
    }
  }

  // All selected units

  predicate Selects(lands: seq<Land>, sel: seq<nat>) {
    forall k :: 0 <= k < |sel| ==> sel[k] < |lands|
  }

  function ShipUnit(lands: seq<Land>, p: Player, s: nat, sp: Ship, sectOwn: nat, loading: bool,
                    u: nat): (seq<Land>, bool)
    requires u < |lands|
  {
    if loading then LoadOnShip(lands, p, s, sp, u) else (UnloadFromShip(lands, p, s, sp, sectOwn, u), false)
  }

  function ShipPass(lands: seq<Land>, p: Player, s: nat, sp: Ship, sectOwn: nat, loading: bool,
                    sel: seq<nat>): (lands': seq<Land>)
    requires Selects(lands, sel)
    ensures |lands'| == |lands|
    decreases |sel|
  {
    if sel == [] then lands
    else
      var (after, full) := ShipUnit(lands, p, s, sp, sectOwn, loading, sel[0]);
      if full then after else ShipPass(after, p, s, sp, sectOwn, loading, sel[1..])
  }

  function LandUnit(lands: seq<Land>, p: Player, c: nat, lp: Land, sectOwn: nat, loading: bool,
                    u: nat): (seq<Land>, bool)
    requires u < |lands|
  {
    if loading then LoadOnLand(lands, p, c, lp, u) else (UnloadFromLand(lands, p, c, sectOwn, u), false)
  }

  function LandPass(lands: seq<Land>, p: Player, c: nat, lp: Land, sectOwn: nat, loading: bool,
                    sel: seq<nat>): (lands': seq<Land>)
    requires Selects(lands, sel)
    ensures |lands'| == |lands|
    decreases |sel|
  {
    if sel == [] then lands
    else
      var (after, full) := LandUnit(lands, p, c, lp, sectOwn, loading, sel[0]);
      if full then after else LandPass(after, p, c, lp, sectOwn, loading, sel[1..])
  }

  /** The unit records, and the loops that update them. */
  class Registry {
    var lands: seq<Land>

    /** load_land_ship, from the selection on */
    method LoadLandShip(p: Player, s: nat, sp: Ship, sectOwn: nat, loading: bool, sel: seq<nat>)
      requires Selects(lands, sel)
      modifies this
      ensures lands == ShipPass(old(lands), p, s, sp, sectOwn, loading, sel)
    {
      hide LoadOnShip, UnloadFromShip;
      var k := 0;
      while k < |sel|
        invariant k <= |sel| && Selects(lands, sel[k..])
        invariant ShipPass(old(lands), p, s, sp, sectOwn, loading, sel)
                  == ShipPass(lands, p, s, sp, sectOwn, loading, sel[k..])
      {
        assert sel[k..][0] == sel[k] && sel[k..][1..] == sel[k + 1..];
        var u, full := sel[k], false;
        if loading {
          var r := LoadOnShip(lands, p, s, sp, u);
          lands, full := r.0, r.1;
        } else {
          lands := UnloadFromShip(lands, p, s, sp, sectOwn, u);
        }
        if full {
          return;
        }
        k := k + 1;
      }
    }

    /** load_land_land, from the selection on */
    method LoadLandLand(p: Player, c: nat, lp: Land, sectOwn: nat, loading: bool, sel: seq<nat>)
      requires Selects(lands, sel)
      modifies this
      ensures lands == LandPass(old(lands), p, c, lp, sectOwn, loading, sel)
    {
      hide LoadOnLand, UnloadFromLand;
      var k := 0;
      while k < |sel|
        invariant k <= |sel| && Selects(lands, sel[k..])
        invariant LandPass(old(lands), p, c, lp, sectOwn, loading, sel)
                  == LandPass(lands, p, c, lp, sectOwn, loading, sel[k..])
      {
        assert sel[k..][0] == sel[k] && sel[k..][1..] == sel[k + 1..];
        var u, full := sel[k], false;
        if loading {
          var r := LoadOnLand(lands, p, c, lp, u);
          lands, full := r.0, r.1;
        } else {
          lands := UnloadFromLand(lands, p, c, sectOwn, u);
        }
        if full {
          break;
        }
        k := k + 1;
      }
    }
  }

  lemma {:induction false} ShipPassKeepsGood(ships: seq<Ship>, lands: seq<Land>, p: Player, s: nat, sectOwn: nat,
                                             loading: bool, sel: seq<nat>)
    requires Good(ships, lands) && s < |ships| && ships[s].own != 0 && Selects(lands, sel)
    ensures Good(ships, ShipPass(lands, p, s, ships[s], sectOwn, loading, sel))
    decreases |sel|
  {
    hide Good, LoadOnShip, UnloadFromShip;
    if sel != [] {
      var (after, full) := ShipUnit(lands, p, s, ships[s], sectOwn, loading, sel[0]);
      LoadOnShipKeepsGood(ships, lands, p, s, sel[0]);
      UnloadFromShipKeepsGood(ships, lands, p, s, ships[s], sectOwn, sel[0]);
      ShipPassKeepsGood(ships, after, p, s, sectOwn, loading, sel[1..]);
    }
  }

  /** The carrier's own record survives, so writing its copy back at the end loses nothing. */
  lemma {:induction false} LandPassKeepsGood(ships: seq<Ship>, lands: seq<Land>, p: Player, c: nat, sectOwn: nat,
                                             loading: bool, sel: seq<nat>)
    requires Good(ships, lands) && c < |lands| && lands[c].own != 0 && Selects(lands, sel)
    ensures Good(ships, LandPass(lands, p, c, lands[c], sectOwn, loading, sel))
    ensures LandPass(lands, p, c, lands[c], sectOwn, loading, sel)[c] == lands[c]
    decreases |sel|
  {
    hide Good, LoadOnLand, UnloadFromLand;
    if sel != [] {
      var (after, full) := LandUnit(lands, p, c, lands[c], sectOwn, loading, sel[0]);
      LoadOnLandKeepsGood(ships, lands, p, c, sel[0]);
      UnloadFromLandKeepsGood(ships, lands, p, c, sectOwn, sel[0]);
      LandPassKeepsGood(ships, after, p, c, sectOwn, loading, sel[1..]);
    }
  }

  // Commands as steps between prompts

  datatype Db = Db(ships: seq<Ship>, lands: seq<Land>, sectOwn: seq<nat>)

  /** A command that waits for its selection of units, with the copies it has read. */
  datatype Session =
    | Idle
    | AskShip(s: nat, sp: Ship, sectOwn: nat, loading: bool)
    | AskLand(c: nat, lp: Land, sectOwn: nat, loading: bool)

  datatype Action =
    | BeginShip(t: nat, s: nat, loading: bool)
    | BeginLand(t: nat, c: nat, loading: bool)
    | Select(t: nat, player: Player, sel: seq<nat>)
    | Cancel(t: nat)
      // Other commands may do anything that keeps carriers and cargo in order
    | Meanwhile(db: Db)

  datatype State = State(db: Db, sessions: seq<Session>)

  predicate StillOkShip(db: Db, session: Session)
    requires session.AskShip?
  {
    && session.s < |db.ships| && db.ships[session.s] == session.sp
    && session.sp.at < |db.sectOwn| && db.sectOwn[session.sp.at] == session.sectOwn
  }

  predicate StillOkLand(db: Db, session: Session)
    requires session.AskLand?
  {
    && session.c < |db.lands| && db.lands[session.c] == session.lp
    && session.lp.at < |db.sectOwn| && db.sectOwn[session.lp.at] == session.sectOwn
  }

  /** Read the ship and its sector, and go to the prompt unless it is clear already that nothing can be loaded. */
  function BeginShipStep(db: Db, s: nat, loading: bool): Session {
    if s >= |db.ships| || db.ships[s].own == 0 || db.ships[s].at >= |db.sectOwn| then Idle
    else
      var sp := db.ships[s];
      if (sp.maxLand == 0 && !sp.sub) || (loading && |OnShip(db.lands, s)| >= ShipRoom(sp)) then Idle
      else AskShip(s, sp, db.sectOwn[sp.at], loading)
  }

  function BeginLandStep(db: Db, c: nat, loading: bool): Session {
    if c >= |db.lands| || db.lands[c].own == 0 || db.lands[c].at >= |db.sectOwn| then Idle
    else
      var lp := db.lands[c];
      if lp.maxLand == 0 || (loading && |OnLand(db.lands, c)| >= lp.maxLand) then Idle
      else AskLand(c, lp, db.sectOwn[lp.at], loading)
  }

  /** The rest of the command, with the write-back of the carrier's copy in c_load or c_lload. */
  function SelectStep(db: Db, session: Session, p: Player, sel: seq<nat>): Db
    requires Selects(db.lands, sel)
  {
    match session
    case Idle => db
    case AskShip(s, sp, sectOwn, loading) =>
      if !StillOkShip(db, session) then db
      else
        Db(db.ships[s := sp], ShipPass(db.lands, p, s, sp, sectOwn, loading, sel), db.sectOwn[sp.at := sectOwn])
    case AskLand(c, lp, sectOwn, loading) =>
      if !StillOkLand(db, session) then db
      else
        db.(lands := LandPass(db.lands, p, c, lp, sectOwn, loading, sel)[c := Prewrite(lp)],
            sectOwn := db.sectOwn[lp.at := sectOwn])
  }

  ghost function Step(st: State, a: Action): State {
    if a.Meanwhile? then (if Good(a.db.ships, a.db.lands) then st.(db := a.db) else st)
    else if a.t >= |st.sessions| then st
    else
      match a
      case BeginShip(t, s, loading) => st.(sessions := st.sessions[t := BeginShipStep(st.db, s, loading)])
      case BeginLand(t, c, loading) => st.(sessions := st.sessions[t := BeginLandStep(st.db, c, loading)])
      case Select(t, p, sel) =>
        if !Selects(st.db.lands, sel) then st
        else State(SelectStep(st.db, st.sessions[t], p, sel), st.sessions[t := Idle])
      case Cancel(t) => st.(sessions := st.sessions[t := Idle])
      case Meanwhile(_) => st
  }

  /** Carriers in sessions were alive when they were read. */
  predicate SessionOk(session: Session) {
    match session
    case Idle => true
    case AskShip(_, sp, _, _) => sp.own != 0
    case AskLand(_, lp, _, _) => lp.own != 0
  }

  ghost predicate StateOk(st: State) {
    && Good(st.db.ships, st.db.lands)
    && forall t :: 0 <= t < |st.sessions| ==> SessionOk(st.sessions[t])
  }

  lemma SelectKeepsGood(db: Db, session: Session, p: Player, sel: seq<nat>)
    requires Good(db.ships, db.lands) && SessionOk(session) && Selects(db.lands, sel)
    ensures var db' := SelectStep(db, session, p, sel); Good(db'.ships, db'.lands)
  {
    hide Roomy, Forest, ShipPass, LandPass, Fits, SpiesOnly;
    if session.AskShip? && StillOkShip(db, session) {
      ShipPassKeepsGood(db.ships, db.lands, p, session.s, session.sectOwn, session.loading, sel);
      assert db.ships[session.s := session.sp] == db.ships;
    } else if session.AskLand? && StillOkLand(db, session) {
      var c, lp := session.c, session.lp;
      LandPassKeepsGood(db.ships, db.lands, p, c, session.sectOwn, session.loading, sel);
      assert PlacedOk(db.ships, db.lands, lp);
      var after := LandPass(db.lands, p, c, lp, session.sectOwn, session.loading, sel);
      assert after[c := Prewrite(lp)] == after;
    }
  }

  lemma StepKeepsOk(st: State, a: Action)
    requires StateOk(st)
    ensures StateOk(Step(st, a))
  {
    hide Good, SelectStep, Prewrite;
    if a.Select? && a.t < |st.sessions| && Selects(st.db.lands, a.sel) {
      SelectKeepsGood(st.db, st.sessions[a.t], a.player, a.sel);
    }
  }

  ghost function Run(st: State, actions: seq<Action>): State
    decreases |actions|
  {
    if actions == [] then st else Run(Step(st, actions[0]), actions[1..])
  }

  /** Over every run, carriers and cargo stay in order. */
  lemma {:induction false} RunKeepsOk(st: State, actions: seq<Action>)
    requires StateOk(st)
    ensures StateOk(Run(st, actions))
    decreases |actions|
  {
    hide Step, StateOk;
    if actions != [] {
      StepKeepsOk(st, actions[0]);
      RunKeepsOk(Step(st, actions[0]), actions[1..]);
    }
  }

  // What order means

  /** However deep cargo is stacked, it is where its outermost carrier is. */
  lemma {:induction false} CargoIsWithItsCarriers(ships: seq<Ship>, lands: seq<Land>, u: nat, k: nat)
    requires Placed(ships, lands) && u < |lands| && 0 <= Up(lands, u, k)
    ensures Up(lands, u, k) < |lands| && lands[Up(lands, u, k)].at == lands[u].at
    decreases k
  {
    hide Fits, SpiesOnly;
    assert PlacedOk(ships, lands, lands[u]);
    if k > 0 && lands[u].land >= 0 {
      CargoIsWithItsCarriers(ships, lands, lands[u].land, k - 1);
    }
  }

  /** In every state that can be reached, no unit is carried by itself, directly or through others. */
  lemma NeverCyclic(st: State, actions: seq<Action>)
    requires StateOk(st)
    ensures Acyclic(Run(st, actions).db.lands)
  {
    hide Run, Ranked, Acyclic, Placed, Roomy;
    RunKeepsOk(st, actions);
    var lands := Run(st, actions).db.lands;
    var rank :| Ranked(lands, rank);
    RankedIsAcyclic(lands, rank);
  }

  // What one command does

  /** Giving a unit away leaves units alone that are on no other unit. */
  lemma {:induction false} GivesOnlyCargo(lands: seq<Land>, u: nat, to: nat, v: nat)
    requires u < |lands| && v < |lands| && v != u && lands[v].land < 0
    ensures GiveAway(lands, u, to)[v] == lands[v]
    decreases Foreign(lands, to), 0
  {
    if lands[u].own != to {
      var given := lands[u := Given(lands[u], to)];
      assert Foreign(given, to) == Foreign(lands, to) - {u};
      assert u in Foreign(lands, to);
      CargoGivesOnlyCargo(given, u, to, 0, v);
    }
  }

  lemma {:induction false} CargoGivesOnlyCargo(lands: seq<Land>, u: nat, to: nat, from: nat, v: nat)
    requires u < |lands| && from <= |lands| && v < |lands| && lands[v].land < 0
    ensures GiveCargo(lands, u, to, from)[v] == lands[v]
    decreases Foreign(lands, to), |lands| - from + 1
  {
    if from < |lands| {
      if lands[from].land == u {
        var given := GiveAway(lands, from, to);
        LessForeign(lands, given, to);
        GivesOnlyCargo(lands, from, to, v);
        CargoGivesOnlyCargo(given, u, to, from + 1, v);
      } else {
        CargoGivesOnlyCargo(lands, u, to, from + 1, v);
      }
    }
  }

  /** Given to somebody, units stay on their carriers. */
  lemma GivingKeepsCarriers(lands: seq<Land>, u: nat, to: nat)
    requires u < |lands| && to != 0 && forall v :: 0 <= v < |lands| && lands[v].Carried() ==> lands[v].own != 0
    ensures var given := GiveAway(lands, u, to);
            forall v :: 0 <= v < |lands| ==> given[v].ship == lands[v].ship && given[v].land == lands[v].land
  {
    hide GiveAway;
  }

  /** What loading one unit onto a ship does to it, and to another one v. */
  lemma OneLoaded(ships: seq<Ship>, lands: seq<Land>, p: Player, s: nat, u: nat, v: nat)
    requires Good(ships, lands) && s < |ships| && ships[s].own != 0 && u < |lands| && v < |lands|
    ensures var after := LoadOnShip(lands, p, s, ships[s], u).0;
            && OnShip(lands, s) <= OnShip(after, s)
            && (LoadableOnto(lands, p, ships[s], v) && v != u ==> LoadableOnto(after, p, ships[s], v))
            && (LoadableOnto(lands, p, ships[s], u) && |OnShip(lands, s)| < ShipRoom(ships[s]) ==>
                  after[u].ship == s && after[u].own == ships[s].own)
  {
    hide Roomy, Forest, SpiesOnly, ShipRoom, GiveAway, Fits;
    var sp := ships[s];
    assert forall x :: 0 <= x < |lands| ==> PlacedOk(ships, lands, lands[x]);
    GivingKeepsCarriers(lands, u, sp.own);
    if v != u && lands[v].land < 0 {
      GivesOnlyCargo(lands, u, sp.own, v);
    }
  }

  lemma OneLoadedOntoLand(ships: seq<Ship>, lands: seq<Land>, p: Player, c: nat, u: nat, v: nat)
    requires Good(ships, lands) && c < |lands| && lands[c].own != 0 && u < |lands| && v < |lands|
    ensures var after := LoadOnLand(lands, p, c, lands[c], u).0;
            && OnLand(lands, c) <= OnLand(after, c)
            && (LoadableOntoLand(lands, p, c, lands[c], v) && v != u ==> LoadableOntoLand(after, p, c, lands[c], v))
            && (LoadableOntoLand(lands, p, c, lands[c], u) && |OnLand(lands, c)| < lands[c].maxLand ==>
                  after[u].land == c && after[u].own == lands[c].own)
  {
    hide Roomy, Forest, SpiesOnly, GiveAway, Fits;
    var lp := lands[c];
    assert forall x :: 0 <= x < |lands| ==> PlacedOk(ships, lands, lands[x]);
    GivingKeepsCarriers(lands, u, lp.own);
    if v != u && lands[v].land < 0 {
      GivesOnlyCargo(lands, u, lp.own, v);
    }
  }

  lemma {:induction false} ShipKeepsCargo(ships: seq<Ship>, lands: seq<Land>, p: Player, s: nat, sectOwn: nat,
                                          sel: seq<nat>)
    requires Good(ships, lands) && s < |ships| && ships[s].own != 0 && Selects(lands, sel)
    ensures OnShip(lands, s) <= OnShip(ShipPass(lands, p, s, ships[s], sectOwn, true, sel), s)
    decreases |sel|
  {
    hide Good, LoadOnShip, OnShip;
    if sel != [] {
      LoadOnShipKeepsGood(ships, lands, p, s, sel[0]);
      OneLoaded(ships, lands, p, s, sel[0], sel[0]);
      ShipKeepsCargo(ships, LoadOnShip(lands, p, s, ships[s], sel[0]).0, p, s, sectOwn, sel[1..]);
    }
  }

  lemma {:induction false} LandKeepsCargo(ships: seq<Ship>, lands: seq<Land>, p: Player, c: nat, sectOwn: nat,
                                          sel: seq<nat>)
    requires Good(ships, lands) && c < |lands| && lands[c].own != 0 && Selects(lands, sel)
    ensures OnLand(lands, c) <= OnLand(LandPass(lands, p, c, lands[c], sectOwn, true, sel), c)
    decreases |sel|
  {
    hide Good, LoadOnLand, OnLand;
    if sel != [] {
      LoadOnLandKeepsGood(ships, lands, p, c, sel[0]);
      OneLoadedOntoLand(ships, lands, p, c, sel[0], sel[0]);
      LandKeepsCargo(ships, LoadOnLand(lands, p, c, lands[c], sel[0]).0, p, c, sectOwn, sel[1..]);
    }
  }

  /** Loading a ship: every selected unit that can be loaded is, unless the ship is full in the end. */
  lemma {:induction false} LoadsAllOrFull(ships: seq<Ship>, lands: seq<Land>, p: Player, s: nat, sectOwn: nat,
                                          sel: seq<nat>, v: nat)
    requires Good(ships, lands) && s < |ships| && ships[s].own != 0 && Selects(lands, sel)
    requires v in sel && LoadableOnto(lands, p, ships[s], v)
    ensures var after := ShipPass(lands, p, s, ships[s], sectOwn, true, sel);
            v in OnShip(after, s) || |OnShip(after, s)| >= ShipRoom(ships[s])
    decreases |sel|
  {
    hide Good, LoadOnShip, LoadableOnto, ShipRoom, ShipPass;
    var u := sel[0];
    var (after, full) := LoadOnShip(lands, p, s, ships[s], u);
    OneShipPass(lands, p, s, ships[s], sectOwn, sel);
    LoadOnShipKeepsGood(ships, lands, p, s, u);
    OneLoaded(ships, lands, p, s, u, v);
    if !full {
      ShipKeepsCargo(ships, after, p, s, sectOwn, sel[1..]);
      Fewer(OnShip(after, s), OnShip(ShipPass(after, p, s, ships[s], sectOwn, true, sel[1..]), s));
      if v != u {
        LoadsAllOrFull(ships, after, p, s, sectOwn, sel[1..], v);
      } else if |OnShip(lands, s)| < ShipRoom(ships[s]) {
        assert v in OnShip(after, s);
      }
    }
  }

  lemma OneShipPass(lands: seq<Land>, p: Player, s: nat, sp: Ship, sectOwn: nat, sel: seq<nat>)
    requires Selects(lands, sel) && sel != []
    ensures var (after, full) := LoadOnShip(lands, p, s, sp, sel[0]);
            ShipPass(lands, p, s, sp, sectOwn, true, sel)
            == if full then after else ShipPass(after, p, s, sp, sectOwn, true, sel[1..])
    ensures LoadOnShip(lands, p, s, sp, sel[0]).1 ==>
              LoadOnShip(lands, p, s, sp, sel[0]).0 == lands && |OnShip(lands, s)| >= ShipRoom(sp)
    ensures LoadableOnto(lands, p, sp, sel[0]) && |OnShip(lands, s)| >= ShipRoom(sp) ==>
              LoadOnShip(lands, p, s, sp, sel[0]).1
  {
    hide LoadableOnto, ShipRoom;
  }

  /** Loading a land unit: every selected unit that can be loaded is, unless the carrier is full in the end. */
  lemma {:induction false} LandLoadsAllOrFull(ships: seq<Ship>, lands: seq<Land>, p: Player, c: nat,
                                              sectOwn: nat, sel: seq<nat>, v: nat)
    requires Good(ships, lands) && c < |lands| && lands[c].own != 0 && Selects(lands, sel)
    requires v in sel && LoadableOntoLand(lands, p, c, lands[c], v)
    ensures var after := LandPass(lands, p, c, lands[c], sectOwn, true, sel);
            v in OnLand(after, c) || |OnLand(after, c)| >= lands[c].maxLand
    decreases |sel|
  {
    hide Good, LoadOnLand, LoadableOntoLand, LandPass;
    var u := sel[0];
    var (after, full) := LoadOnLand(lands, p, c, lands[c], u);
    OneLandPass(lands, p, c, lands[c], sectOwn, sel);
    LoadOnLandKeepsGood(ships, lands, p, c, u);
    OneLoadedOntoLand(ships, lands, p, c, u, v);
    if !full {
      LandKeepsCargo(ships, after, p, c, sectOwn, sel[1..]);
      Fewer(OnLand(after, c), OnLand(LandPass(after, p, c, lands[c], sectOwn, true, sel[1..]), c));
      if v != u {
        LandLoadsAllOrFull(ships, after, p, c, sectOwn, sel[1..], v);
      } else if |OnLand(lands, c)| < lands[c].maxLand {
        assert v in OnLand(after, c);
      }
    }
  }

  lemma OneLandPass(lands: seq<Land>, p: Player, c: nat, lp: Land, sectOwn: nat, sel: seq<nat>)
    requires Selects(lands, sel) && sel != []
    ensures var (after, full) := LoadOnLand(lands, p, c, lp, sel[0]);
            LandPass(lands, p, c, lp, sectOwn, true, sel)
            == if full then after else LandPass(after, p, c, lp, sectOwn, true, sel[1..])
    ensures LoadOnLand(lands, p, c, lp, sel[0]).1 ==>
              LoadOnLand(lands, p, c, lp, sel[0]).0 == lands && |OnLand(lands, c)| >= lp.maxLand
    ensures LoadableOntoLand(lands, p, c, lp, sel[0]) && |OnLand(lands, c)| >= lp.maxLand ==>
              LoadOnLand(lands, p, c, lp, sel[0]).1
  {
    hide LoadableOntoLand;
  }

  lemma OneUnloaded(ships: seq<Ship>, lands: seq<Land>, p: Player, s: nat, sectOwn: nat, u: nat, v: nat)
    requires Good(ships, lands) && s < |ships| && u < |lands| && v < |lands| && lands[v].land < 0
    ensures var after := UnloadFromShip(lands, p, s, ships[s], sectOwn, u);
            && (v != u ==> after[v] == lands[v])
            && (v == u && lands[v].ship == s && Controls(p, lands[v]) ==> after[v].ship < 0)
            && (v == u && (lands[v].ship != s || !Controls(p, lands[v])) ==> after[v] == lands[v])
            && after[v].land < 0
  {
    hide Roomy, Forest, SpiesOnly, Looser;
    assert PlacedOk(ships, lands, lands[v]);
    GivingIsLooser(ships, lands, u, sectOwn);
    LooserAt(lands, GiveAway(lands, u, sectOwn), u);
    if v != u {
      GivesOnlyCargo(lands, u, sectOwn, v);
    }
  }

  /**
   Unloading a ship: exactly the selected units that the player controls go ashore, whatever their type, and no unit
   that is not selected is touched unless it rides on another unit.
   */
  lemma {:induction false} UnloadsSelected(ships: seq<Ship>, lands: seq<Land>, p: Player, s: nat, sectOwn: nat,
                                           sel: seq<nat>, v: nat)
    requires Good(ships, lands) && s < |ships| && ships[s].own != 0 && Selects(lands, sel) && v < |lands|
             && lands[v].land < 0
    ensures var after := ShipPass(lands, p, s, ships[s], sectOwn, false, sel);
            && (v !in sel || lands[v].ship != s || !Controls(p, lands[v]) ==> after[v] == lands[v])
            && (v in sel && lands[v].ship == s && Controls(p, lands[v]) ==> after[v].ship < 0)
    decreases |sel|
  {
    hide Good, UnloadFromShip, Controls;
    if sel != [] {
      var after := UnloadFromShip(lands, p, s, ships[s], sectOwn, sel[0]);
      OneUnloaded(ships, lands, p, s, sectOwn, sel[0], v);
      UnloadFromShipKeepsGood(ships, lands, p, s, ships[s], sectOwn, sel[0]);
      UnloadsSelected(ships, after, p, s, sectOwn, sel[1..], v);
    }
  }

  /** Giving a unit away leaves units alone whose carrier ranks above it. */
  lemma {:induction false} GivesNoSiblings(lands: seq<Land>, rank: seq<int>, u: nat, to: nat, v: nat)
    requires Ranked(lands, rank) && u < |lands| && v < |lands| && v != u
    requires lands[v].land >= 0 && rank[lands[v].land] > rank[u]
    ensures GiveAway(lands, u, to)[v] == lands[v]
    decreases Foreign(lands, to), 0
  {
    if lands[u].own != to {
      var given := lands[u := Given(lands[u], to)];
      assert Foreign(given, to) == Foreign(lands, to) - {u};
      assert u in Foreign(lands, to);
      CargoGivesNoSiblings(given, rank, u, to, 0, v);
    }
  }

  lemma {:induction false} CargoGivesNoSiblings(lands: seq<Land>, rank: seq<int>, u: nat, to: nat, from: nat, v: nat)
    requires Ranked(lands, rank) && u < |lands| && from <= |lands| && v < |lands|
    requires lands[v].land >= 0 && rank[lands[v].land] > rank[u]
    ensures GiveCargo(lands, u, to, from)[v] == lands[v]
    decreases Foreign(lands, to), |lands| - from + 1
  {
    if from < |lands| {
      if lands[from].land == u {
        var given := GiveAway(lands, from, to);
        LessForeign(lands, given, to);
        GivesNoSiblings(lands, rank, from, to, v);
        CargoGivesNoSiblings(given, rank, u, to, from + 1, v);
      } else {
        CargoGivesNoSiblings(lands, rank, u, to, from + 1, v);
      }
    }
  }

  lemma OneUnloadedFromLand(ships: seq<Ship>, lands: seq<Land>, p: Player, c: nat, sectOwn: nat, u: nat, v: nat)
    requires Good(ships, lands) && c < |lands| && u < |lands| && v < |lands|
             && (lands[v].land == c || lands[v].land < 0)
    ensures var after := UnloadFromLand(lands, p, c, sectOwn, u);
            && (v != u ==> after[v] == lands[v])
            && (v == u && lands[v].land == c && Controls(p, lands[v]) ==> after[v].land < 0)
            && (v == u && (lands[v].land != c || !Controls(p, lands[v])) ==> after[v] == lands[v])
  {
    hide Roomy, SpiesOnly, Fits, GiveAway;
    assert PlacedOk(ships, lands, lands[v]) && PlacedOk(ships, lands, lands[u]);
    var rank :| Ranked(lands, rank);
    if v != u && lands[u].land == c {
      if lands[v].land == c {
        GivesNoSiblings(lands, rank, u, sectOwn, v);
      } else {
        GivesOnlyCargo(lands, u, sectOwn, v);
      }
    }
  }

  /** Unloading a land unit: exactly the selected units on it that the player controls get off. */
  lemma {:induction false} LandUnloadsSelected(ships: seq<Ship>, lands: seq<Land>, p: Player, c: nat,
                                               sectOwn: nat, sel: seq<nat>, v: nat)
    requires Good(ships, lands) && c < |lands| && Selects(lands, sel) && v < |lands|
             && (lands[v].land == c || lands[v].land < 0)
    ensures var after := LandPass(lands, p, c, lands[c], sectOwn, false, sel);
            && (v !in sel || lands[v].land != c || !Controls(p, lands[v]) ==> after[v] == lands[v])
            && (v in sel && lands[v].land == c && Controls(p, lands[v]) ==> after[v].land < 0)
    decreases |sel|
  {
    hide Good, UnloadFromLand, Controls;
    if sel != [] {
      var after := UnloadFromLand(lands, p, c, sectOwn, sel[0]);
      OneUnloadedFromLand(ships, lands, p, c, sectOwn, sel[0], v);
      UnloadFromLandKeepsGood(ships, lands, p, c, sectOwn, sel[0]);
      LandUnloadsSelected(ships, after, p, c, sectOwn, sel[1..], v);
    }
  }

  // Exactly what loading and unloading do

  /** Who may be loaded onto a ship: one's own unit there that fits, is on nothing, and carries no unit. */
  ghost predicate MayBoard(lands: seq<Land>, p: Player, sp: Ship, u: nat)
    requires u < |lands|
  {
    var l := lands[u];
    && (p.god || l.own == p.cnum) && l.at == sp.at
    && l.ship < 0 && l.land < 0 && !l.heavy && (forall v :: 0 <= v < |lands| ==> lands[v].land != u)
    && (l.light || (sp.supply && !sp.sub)) && (sp.sub && sp.maxLand == 0 ==> l.spy)
  }

  /** The same for land units as carriers; a unit is not loaded onto itself. */
  ghost predicate MayRide(lands: seq<Land>, p: Player, c: nat, u: nat)
    requires u < |lands| && c < |lands|
  {
    var l := lands[u];
    && (p.god || l.own == p.cnum) && l.at == lands[c].at && u != c
    && l.ship < 0 && l.land < 0 && !l.heavy && forall v :: 0 <= v < |lands| ==> lands[v].land != u
  }

  /** The ship has no room for more; submarines that carry no land units have room for two spies. */
  ghost predicate Full(lands: seq<Land>, s: int, sp: Ship) {
    |set u: nat | u < |lands| && lands[u].ship == s| >= if sp.sub && sp.maxLand == 0 then 2 else sp.maxLand
  }

  ghost predicate FullLand(lands: seq<Land>, c: int, lp: Land) {
    |set u: nat | u < |lands| && lands[u].land == c| >= lp.maxLand
  }

  lemma MayBoardIs(lands: seq<Land>, p: Player, s: int, sp: Ship, u: nat)
    requires u < |lands|
    ensures LoadableOnto(lands, p, sp, u) <==> MayBoard(lands, p, sp, u)
    ensures |OnShip(lands, s)| >= ShipRoom(sp) <==> Full(lands, s, sp)
  {
    NoneAboard(lands, u);
  }

  lemma MayRideIs(lands: seq<Land>, p: Player, c: nat, u: nat)
    requires u < |lands| && c < |lands|
    ensures LoadableOntoLand(lands, p, c, lands[c], u) <==> MayRide(lands, p, c, u)
    ensures |OnLand(lands, c)| >= lands[c].maxLand <==> FullLand(lands, c, lands[c])
  {
    NoneAboard(lands, u);
  }

  lemma NoneAboard(lands: seq<Land>, u: nat)
    ensures OnLand(lands, u) == {} <==> forall v :: 0 <= v < |lands| ==> lands[v].land != u
  {
    if OnLand(lands, u) == {} {
      forall v | 0 <= v < |lands| ensures lands[v].land != u {
        assert v !in OnLand(lands, u);
      }
    }
  }

  lemma {:induction false} NoCargoToGive(lands: seq<Land>, u: nat, to: nat, from: nat)
    requires u < |lands| && from <= |lands| && forall v :: 0 <= v < |lands| ==> lands[v].land != u
    ensures GiveCargo(lands, u, to, from) == lands
    decreases |lands| - from
  {
    if from < |lands| {
      NoCargoToGive(lands, u, to, from + 1);
    }
  }

  /** A unit that carries nothing is given away by itself. */
  lemma GivesLeaf(lands: seq<Land>, u: nat, to: nat)
    requires u < |lands| && to != 0 && !lands[u].Carried() && forall v :: 0 <= v < |lands| ==> lands[v].land != u
    ensures GiveAway(lands, u, to) == lands[u := lands[u].(own := to)]
  {
    hide GiveCargo;
    if lands[u].own != to {
      NoCargoToGive(lands[u := Given(lands[u], to)], u, to, 0);
    } else {
      assert lands[u := lands[u].(own := to)] == lands;
    }
  }

  /** Loading a unit onto a ship makes it the ship owner's, not fortified, and changes nothing else. */
  lemma Boards(lands: seq<Land>, p: Player, s: nat, sp: Ship, u: nat)
    requires u < |lands| && sp.own != 0
    ensures LoadOnShip(lands, p, s, sp, u) ==
            if !MayBoard(lands, p, sp, u) then (lands, false)
            else if Full(lands, s, sp) then (lands, true)
            else (lands[u := lands[u].(own := sp.own, ship := s, harden := 0)], false)
  {
    hide GiveAway, LoadableOnto, ShipRoom;
    MayBoardIs(lands, p, s, sp, u);
    if MayBoard(lands, p, sp, u) {
      GivesLeaf(lands, u, sp.own);
      var l := lands[u].(own := sp.own, ship := s, harden := 0);
      assert lands[u := lands[u].(own := sp.own)][u := l] == lands[u := l];
    }
  }

  lemma Rides(lands: seq<Land>, p: Player, c: nat, u: nat)
    requires u < |lands| && c < |lands| && lands[c].own != 0
    ensures LoadOnLand(lands, p, c, lands[c], u) ==
            if !MayRide(lands, p, c, u) then (lands, false)
            else if FullLand(lands, c, lands[c]) then (lands, true)
            else (lands[u := lands[u].(own := lands[c].own, land := c, harden := 0)], false)
  {
    hide GiveAway, LoadableOntoLand;
    MayRideIs(lands, p, c, u);
    if MayRide(lands, p, c, u) {
      GivesLeaf(lands, u, lands[c].own);
      var l := lands[u].(own := lands[c].own, land := c, harden := 0);
      assert lands[u := lands[u].(own := lands[c].own)][u := l] == lands[u := l];
    }
  }

  /** Only selected units that may board are loaded, and nothing else changes. */
  lemma {:induction false} BoardersWereSelected(lands: seq<Land>, p: Player, s: nat, sp: Ship, sectOwn: nat,
                                                sel: seq<nat>, v: nat)
    requires sp.own != 0 && Selects(lands, sel) && v < |lands|
    ensures var after := ShipPass(lands, p, s, sp, sectOwn, true, sel);
            || after[v] == lands[v]
            || (v in sel && MayBoard(lands, p, sp, v)
                && after[v] == lands[v].(own := sp.own, ship := s, harden := 0))
    decreases |sel|
  {
    hide LoadOnShip, UnloadFromShip, Full;
    if sel != [] {
      var u := sel[0];
      var (after, full) := LoadOnShip(lands, p, s, sp, u);
      Boards(lands, p, s, sp, u);
      if !full {
        BoardersWereSelected(after, p, s, sp, sectOwn, sel[1..], v);
        if v != u && MayBoard(after, p, sp, v) {
          forall w | 0 <= w < |lands| ensures lands[w].land != v {
            assert after[w].land == lands[w].land;
          }
        }
      }
    }
  }

  lemma {:induction false} RidersWereSelected(lands: seq<Land>, p: Player, c: nat, sectOwn: nat, sel: seq<nat>, v: nat)
    requires c < |lands| && lands[c].own != 0 && Selects(lands, sel) && v < |lands|
    ensures var after := LandPass(lands, p, c, lands[c], sectOwn, true, sel);
            || after[v] == lands[v]
            || (v in sel && MayRide(lands, p, c, v)
                && after[v] == lands[v].(own := lands[c].own, land := c, harden := 0))
    decreases |sel|
  {
    hide LoadOnLand, UnloadFromLand, FullLand;
    if sel != [] {
      var u := sel[0];
      var (after, full) := LoadOnLand(lands, p, c, lands[c], u);
      Rides(lands, p, c, u);
      if !full {
        RidersWereSelected(after, p, c, sectOwn, sel[1..], v);
        if v != u && MayRide(after, p, c, v) {
          forall w | 0 <= w < |lands| ensures lands[w].land != v {
            assert w != u ==> after[w].land == lands[w].land;
          }
        }
      }
    }
  }

  /** A unit that goes ashore becomes the sector owner's, unless it is a spy. */
  lemma GoesAshore(ships: seq<Ship>, lands: seq<Land>, p: Player, s: nat, sectOwn: nat, u: nat)
    requires Good(ships, lands) && s < |ships| && u < |lands|
    ensures var after := UnloadFromShip(lands, p, s, ships[s], sectOwn, u);
            if lands[u].ship == s && (p.god || lands[u].own == p.cnum)
            then after[u].ship == -1 && after[u].land < 0 && after[u].at == lands[u].at
                 && after[u].own == (if lands[u].spy then lands[u].own else sectOwn)
            else after == lands
  {
    hide Roomy, Forest, SpiesOnly, GiveAway, Looser;
    assert PlacedOk(ships, lands, lands[u]);
    GivingIsLooser(ships, lands, u, sectOwn);
    LooserAt(lands, GiveAway(lands, u, sectOwn), u);
  }

  lemma GetsOff(ships: seq<Ship>, lands: seq<Land>, p: Player, c: nat, sectOwn: nat, u: nat)
    requires Good(ships, lands) && c < |lands| && u < |lands|
    ensures var after := UnloadFromLand(lands, p, c, sectOwn, u);
            if lands[u].land == c && (p.god || lands[u].own == p.cnum)
            then after[u].land == -1 && after[u].ship < 0 && after[u].at == lands[u].at && after[u].own == sectOwn
            else after == lands
  {
    hide Roomy, Forest, SpiesOnly, GiveAway, Looser;
    assert PlacedOk(ships, lands, lands[u]);
    GivingIsLooser(ships, lands, u, sectOwn);
    LooserAt(lands, GiveAway(lands, u, sectOwn), u);
  }

  lemma {:induction false} AllGoAshore(ships: seq<Ship>, lands: seq<Land>, p: Player, s: nat, sectOwn: nat,
                                       sel: seq<nat>, v: nat)
    requires Good(ships, lands) && s < |ships| && Selects(lands, sel) && v < |lands| && lands[v].land < 0
    ensures var after := ShipPass(lands, p, s, ships[s], sectOwn, false, sel);
            if v in sel && lands[v].ship == s && (p.god || lands[v].own == p.cnum)
            then after[v].ship == -1 && after[v].land < 0 && after[v].at == lands[v].at
                 && after[v].own == (if lands[v].spy then lands[v].own else sectOwn)
            else after[v] == lands[v]
    decreases |sel|
  {
    hide Good, UnloadFromShip, LoadOnShip;
    if sel != [] {
      var u := sel[0];
      var after := UnloadFromShip(lands, p, s, ships[s], sectOwn, u);
      OneUnloaded(ships, lands, p, s, sectOwn, u, v);
      GoesAshore(ships, lands, p, s, sectOwn, u);
      UnloadFromShipKeepsGood(ships, lands, p, s, ships[s], sectOwn, u);
      AllGoAshore(ships, after, p, s, sectOwn, sel[1..], v);
    }
  }

  lemma {:induction false} AllGetOff(ships: seq<Ship>, lands: seq<Land>, p: Player, c: nat, sectOwn: nat,
                                     sel: seq<nat>, v: nat)
    requires Good(ships, lands) && c < |lands| && lands[c].own != 0 && Selects(lands, sel) && v < |lands|
             && (lands[v].land == c || lands[v].land < 0)
    ensures var after := LandPass(lands, p, c, lands[c], sectOwn, false, sel);
            if v in sel && lands[v].land == c && (p.god || lands[v].own == p.cnum)
            then after[v].land == -1 && after[v].ship < 0 && after[v].at == lands[v].at && after[v].own == sectOwn
            else after[v] == lands[v]
    decreases |sel|
  {
    hide Good, UnloadFromLand, LoadOnLand;
    if sel != [] {
      var u := sel[0];
      var after := UnloadFromLand(lands, p, c, sectOwn, u);
      OneUnloadedFromLand(ships, lands, p, c, sectOwn, u, v);
      GetsOff(ships, lands, p, c, sectOwn, u);
      UnloadFromLandKeepsGood(ships, lands, p, c, sectOwn, u);
      AllGetOff(ships, after, p, c, sectOwn, sel[1..], v);
    }
  }

  // Whole commands

  /** The command's copies of a ship and the sector it is in are good. */
  ghost predicate ShipUnchanged(db: Db, s: nat, sp: Ship, sectOwn: nat) {
    s < |db.ships| && db.ships[s] == sp && sp.at < |db.sectOwn| && db.sectOwn[sp.at] == sectOwn
  }

  ghost predicate LandUnchanged(db: Db, c: nat, lp: Land, sectOwn: nat) {
    c < |db.lands| && db.lands[c] == lp && lp.at < |db.sectOwn| && db.sectOwn[lp.at] == sectOwn
  }

  /**
   What becomes of unit v when the player selects units for a ship.  Loading: it is
   loaded if it was selected and may board, unless the ship is full in the end;
   nothing else changes.  Unloading: it goes ashore exactly when it was selected, is
   on the ship and the player's.  When copies are stale, nothing happens at all.
   */
  lemma ShipCommand(db: Db, session: Session, p: Player, sel: seq<nat>, v: nat)
    requires Good(db.ships, db.lands) && session.AskShip? && SessionOk(session) && Selects(db.lands, sel)
    requires v < |db.lands|
    ensures var AskShip(s, sp, sectOwn, loading) := session;
            var (db', l) := (SelectStep(db, session, p, sel), db.lands[v]);
            if !ShipUnchanged(db, s, sp, sectOwn) then db' == db
            else
              && db'.ships == db.ships && db'.sectOwn == db.sectOwn && |db'.lands| == |db.lands|
              && var l' := db'.lands[v];
              if loading then
                && (l' == l || (v in sel && MayBoard(db.lands, p, sp, v)
                                && l' == l.(own := sp.own, ship := s, harden := 0)))
                && (v in sel && MayBoard(db.lands, p, sp, v) ==> l'.ship == s || Full(db'.lands, s, sp))
              else l.land < 0 ==>
                if v in sel && l.ship == s && (p.god || l.own == p.cnum)
                then l'.ship == -1 && l'.land < 0 && l'.at == l.at && l'.own == (if l.spy then l.own else sectOwn)
                else l' == l
  {
    hide Good, ShipPass, Full, MayBoard, LoadableOnto, ShipRoom;
    var AskShip(s, sp, sectOwn, loading) := session;
    if ShipUnchanged(db, s, sp, sectOwn) {
      assert db.ships[s := sp] == db.ships && db.sectOwn[sp.at := sectOwn] == db.sectOwn;
      MayBoardIs(db.lands, p, s, sp, v);
      MayBoardIs(ShipPass(db.lands, p, s, sp, sectOwn, loading, sel), p, s, sp, v);
      if loading {
        BoardersWereSelected(db.lands, p, s, sp, sectOwn, sel, v);
        if v in sel && MayBoard(db.lands, p, sp, v) {
          LoadsAllOrFull(db.ships, db.lands, p, s, sectOwn, sel, v);
        }
      } else if db.lands[v].land < 0 {
        AllGoAshore(db.ships, db.lands, p, s, sectOwn, sel, v);
      }
    }
  }

  /** The same for a land unit as carrier. */
  lemma LandCommand(db: Db, session: Session, p: Player, sel: seq<nat>, v: nat)
    requires Good(db.ships, db.lands) && session.AskLand? && SessionOk(session) && Selects(db.lands, sel)
    requires v < |db.lands|
    ensures var AskLand(c, lp, sectOwn, loading) := session;
            var (db', l) := (SelectStep(db, session, p, sel), db.lands[v]);
            if !LandUnchanged(db, c, lp, sectOwn) then db' == db
            else
              && db'.ships == db.ships && db'.sectOwn == db.sectOwn && |db'.lands| == |db.lands|
              && var l' := db'.lands[v];
              if loading then
                && (l' == l || (v in sel && MayRide(db.lands, p, c, v)
                                && l' == l.(own := lp.own, land := c, harden := 0)))
                && (v in sel && MayRide(db.lands, p, c, v) ==> l'.land == c || FullLand(db'.lands, c, lp))
              else l.land == c || l.land < 0 ==>
                if v in sel && l.land == c && (p.god || l.own == p.cnum)
                then l'.land == -1 && l'.ship < 0 && l'.at == l.at && l'.own == sectOwn
                else l' == l
  {
    hide Good, LandPass, FullLand, MayRide, LoadableOntoLand;
    var AskLand(c, lp, sectOwn, loading) := session;
    if LandUnchanged(db, c, lp, sectOwn) {
      CopyIsRecord(db, c, lp, sectOwn, loading, p, sel);
      MayRideIs(db.lands, p, c, v);
      MayRideIs(LandPass(db.lands, p, c, lp, sectOwn, loading, sel), p, c, v);
      if loading {
        RidersWereSelected(db.lands, p, c, sectOwn, sel, v);
        if v in sel && MayRide(db.lands, p, c, v) {
          LandLoadsAllOrFull(db.ships, db.lands, p, c, sectOwn, sel, v);
        }
      } else if db.lands[v].land == c || db.lands[v].land < 0 {
        AllGetOff(db.ships, db.lands, p, c, sectOwn, sel, v);
      }
    }
  }

  /** Writing back the carrier's copy changes nothing. */
  lemma CopyIsRecord(db: Db, c: nat, lp: Land, sectOwn: nat, loading: bool, p: Player, sel: seq<nat>)
    requires Good(db.ships, db.lands) && LandUnchanged(db, c, lp, sectOwn) && lp.own != 0 && Selects(db.lands, sel)
    ensures var after := LandPass(db.lands, p, c, lp, sectOwn, loading, sel);
            after[c] == lp && after[c := Prewrite(lp)] == after && db.sectOwn[lp.at := sectOwn] == db.sectOwn
  {
    hide Roomy, Forest, LandPass, Fits, SpiesOnly;
    LandPassKeepsGood(db.ships, db.lands, p, c, sectOwn, loading, sel);
    assert PlacedOk(db.ships, db.lands, lp);
  }

  /** Whether a command gets to its prompt: the carrier is alive and carries land units, with room left when loading. */
  lemma CommandBegins(st: State, t: nat, s: nat, loading: bool)
    requires t < |st.sessions|
    ensures var db := st.db;
            Step(st, BeginShip(t, s, loading)) ==
            if s < |db.ships| && db.ships[s].own != 0 && db.ships[s].at < |db.sectOwn|
               && (db.ships[s].maxLand > 0 || db.ships[s].sub) && !(loading && Full(db.lands, s, db.ships[s]))
            then st.(sessions := st.sessions[t := AskShip(s, db.ships[s], db.sectOwn[db.ships[s].at], loading)])
            else st.(sessions := st.sessions[t := Idle])
    ensures var db := st.db;
            Step(st, BeginLand(t, s, loading)) ==
            if s < |db.lands| && db.lands[s].own != 0 && db.lands[s].at < |db.sectOwn|
               && db.lands[s].maxLand > 0 && !(loading && FullLand(db.lands, s, db.lands[s]))
            then st.(sessions := st.sessions[t := AskLand(s, db.lands[s], db.sectOwn[db.lands[s].at], loading)])
            else st.(sessions := st.sessions[t := Idle])
  {
  }

  /** Selecting units is the rest of the command, and nobody else's. */
  lemma CommandEnds(st: State, t: nat, p: Player, sel: seq<nat>)
    requires t < |st.sessions| && Selects(st.db.lands, sel)
    ensures Step(st, Select(t, p, sel)) == State(SelectStep(st.db, st.sessions[t], p, sel), st.sessions[t := Idle])
    ensures SelectStep(st.db, Idle, p, sel) == st.db
  {
    hide SelectStep;
    assert SelectStep(st.db, Idle, p, sel) == st.db by {
      NothingSelected(st.db, p, sel);
    }
  }

  lemma NothingSelected(db: Db, p: Player, sel: seq<nat>)
    requires Selects(db.lands, sel)
    ensures SelectStep(db, Idle, p, sel) == db
  {
  }

  /** Loading one's own unit onto one's own ship and unloading it at home only costs its fortification. */
  lemma LoadThenUnload(ships: seq<Ship>, lands: seq<Land>, p: Player, s: nat, u: nat)
    requires Good(ships, lands) && s < |ships| && u < |lands| && p.cnum != 0
    requires lands[u].own == p.cnum && ships[s].own == p.cnum && lands[u].ship == -1
    requires LoadableOnto(lands, p, ships[s], u) && |OnShip(lands, s)| < ShipRoom(ships[s])
    ensures UnloadFromShip(LoadOnShip(lands, p, s, ships[s], u).0, p, s, ships[s], p.cnum, u)
            == lands[u := lands[u].(harden := 0)]
  {
    hide OnShip, OnLand, ShipRoom, SpiesOnly;
    var loaded := LoadOnShip(lands, p, s, ships[s], u).0;
    assert loaded == lands[u := lands[u].(ship := s, harden := 0)];
  }
}
