/**
 Loading and unloading commodities (c_load, c_lload, load_comm_ship,
 load_comm_land).

 A command works on copies of a sector and a unit.  Other commands may run
 whenever it waits at a prompt, so it checks that its copies are still good
 before it relies on them, and writes them back without waiting again.  Commands
 are modelled as the steps between prompts.
 */
module Cargo {

  import opened Arith
  import opened GameTypes

  datatype Sect = Sect(own: nat, oldown: nat, items: Items, pstage: Plague)

  /** A ship or land unit; max is what units of its type can hold. */
  datatype Unit = Unit(isShip: bool, own: nat, at: nat, items: Items, max: Items, harden: nat, pstage: Plague)

  datatype Db = Db(sects: seq<Sect>, units: seq<Unit>)

  // How much to move

  /** What the player asks for: a negative amount is how much to leave on the unit. */
  function Wanted(unitAmt: int, loading: bool, amount: int): int {
    if amount < 0 then -amount - unitAmt else if loading then amount else -amount
  }

  /** move_amount */
  function MoveAmount(sectAmt: int, unitAmt: int, unitMax: int, loading: bool, amount: int): int {
    LimitTo(LimitTo(Wanted(unitAmt, loading, amount), -unitAmt, unitMax - unitAmt), sectAmt - ITEM_MAX, sectAmt)
  }

  /** Moving m keeps both amounts within their limits. */
  predicate Possible(sectAmt: int, unitAmt: int, unitMax: int, m: int) {
    0 <= sectAmt - m <= ITEM_MAX && 0 <= unitAmt + m <= unitMax
  }

  /** The amount moved is possible, and no possible amount is closer to what the player wants. */
  lemma MovesBestAmount(sectAmt: int, unitAmt: int, unitMax: int, loading: bool, amount: int, m: int)
    requires 0 <= sectAmt <= ITEM_MAX && 0 <= unitAmt <= unitMax
    ensures Possible(sectAmt, unitAmt, unitMax, MoveAmount(sectAmt, unitAmt, unitMax, loading, amount))
    ensures Possible(sectAmt, unitAmt, unitMax, m) ==>
              var wanted := Wanted(unitAmt, loading, amount);
              Abs(wanted - MoveAmount(sectAmt, unitAmt, unitMax, loading, amount)) <= Abs(wanted - m)
  {
  }

  /** Loading moves as much as was asked for, as far as it is there and there is room for it on the unit. */
  lemma LoadsAmount(sectAmt: int, unitAmt: int, unitMax: int, amount: nat)
    requires 0 <= sectAmt <= ITEM_MAX && 0 <= unitAmt <= unitMax <= ITEM_MAX
    ensures MoveAmount(sectAmt, unitAmt, unitMax, true, amount) == Min(amount, Min(sectAmt, unitMax - unitAmt))
  {
  }

  /** Unloading likewise, as far as there is room in the sector. */
  lemma UnloadsAmount(sectAmt: int, unitAmt: int, unitMax: int, amount: nat)
    requires 0 <= sectAmt <= ITEM_MAX && 0 <= unitAmt <= unitMax <= ITEM_MAX
    ensures -MoveAmount(sectAmt, unitAmt, unitMax, false, amount) == Min(amount, Min(unitAmt, ITEM_MAX - sectAmt))
  {
  }

  /**
   A negative amount is what the unit should hold in the end, whether loading or
   unloading: it does, as far as it can hold that much, there is as much between
   the two, and the sector can hold the rest.
   */
  lemma LevelsAmount(sectAmt: int, unitAmt: int, unitMax: int, loading: bool, amount: int)
    requires 0 <= sectAmt <= ITEM_MAX && 0 <= unitAmt <= unitMax <= ITEM_MAX && amount < 0
    ensures unitAmt + MoveAmount(sectAmt, unitAmt, unitMax, loading, amount)
            == Max(Max(0, sectAmt + unitAmt - ITEM_MAX), Min(-amount, Min(unitMax, sectAmt + unitAmt)))
  {
  }

  /** load_comm_ok */
  predicate LoadCommOk(p: Player, sect: Sect, unitOwn: nat, item: nat, m: int) {
    && m != 0
    && (m < 0 ==> p.god || unitOwn == p.cnum)
    && (m > 0 ==> p.god || sect.own == p.cnum)
    && (sect.oldown != unitOwn ==> item != I_CIVIL)
  }

  // Writing back

  /** Ownership a sector or unit ends up with: writing it may abandon it. */
  datatype Owners = Owners(sectOwn: nat, sectOldown: nat, unitOwn: nat)

  /** Lines 174-182 and 286-295: spread the plague, then putsect and putship or putland. */
  function WriteBack(db: Db, s: nat, u: nat, sect: Sect, unit: Unit, owners: Owners): Db
    requires s < |db.sects| && u < |db.units|
  {
    var unit := if sect.pstage == Infect && unit.pstage == Healthy then unit.(pstage := Exposed) else unit;
    var sect := if unit.pstage == Infect && sect.pstage == Healthy then sect.(pstage := Exposed) else sect;
    Db(db.sects[s := sect.(own := owners.sectOwn, oldown := owners.sectOldown, items := ItemPrewrite(sect.items))],
       db.units[u := unit.(own := owners.unitOwn, items := ItemPrewrite(unit.items))])
  }

  /** Lines 693-694 and 829-834: move m from the sector to the unit. */
  function Moved(sect: Sect, unit: Unit, item: nat, m: int): (Sect, Unit)
    requires item < I_COUNT
  {
    (sect.(items := sect.items[item := sect.items[item] - m]),
     unit.(items := unit.items[item := unit.items[item] + m],
           harden := if !unit.isShip && item == I_MILIT && m > 0 then 0 else unit.harden))
  }

  // Commands as steps between prompts

  /** Where a player's command waits: for an amount, or for confirmation that a sector may be abandoned. */
  datatype Session =
    | Idle
    | AskAmount(s: nat, u: nat, sect: Sect, unit: Unit, item: nat, loading: bool)
    | AskAbandon(s: nat, u: nat, sect: Sect, unit: Unit, item: nat, m: int)

  /** still_ok_ship, still_ok_land */
  predicate StillOk(db: Db, session: Session)
    requires !session.Idle?
  {
    && session.s < |db.sects| && db.sects[session.s] == session.sect
    && session.u < |db.units| && db.units[session.u] == session.unit
  }

  datatype Action =
    | Begin(t: nat, u: nat, item: nat, loading: bool)
    | Amount(t: nat, player: Player, amount: int, asks: bool, owners: Owners)
    | Confirm(t: nat, yes: bool, owners: Owners)

  datatype State = State(db: Db, sessions: seq<Session>)

  /** Up to the prompt for an amount: read unit and sector. */
  function BeginStep(db: Db, session: Session, u: nat, item: nat, loading: bool): Session {
    if session.Idle? && u < |db.units| && db.units[u].at < |db.sects| && item < I_COUNT then
      AskAmount(db.units[u].at, u, db.sects[db.units[u].at], db.units[u], item, loading)
    else
      session
  }

  /** Lines 680-694 up to a prompt, or lines 820-834. */
  function AmountStep(db: Db, session: Session, p: Player, amount: int, asks: bool, owners: Owners): (Db, Session)
    requires session.AskAmount? && session.item < I_COUNT
  {
    if !StillOk(db, session) then (db, Idle)
    else
      var AskAmount(s, u, sect, unit, item, loading) := session;
      var m := MoveAmount(sect.items[item], unit.items[item], unit.max[item], loading, amount);
      if !LoadCommOk(p, sect, unit.own, item, m) then
        (WriteBack(db, s, u, sect, unit, owners), Idle)
      else if unit.isShip && asks then
        (db, AskAbandon(s, u, sect, unit, item, m))
      else
        var (sect', unit') := Moved(sect, unit, item, m);
        (WriteBack(db, s, u, sect', unit', owners), Idle)
  }

  /** Lines 689-694 after the prompt. */
  function ConfirmStep(db: Db, session: Session, yes: bool, owners: Owners): (Db, Session)
    requires session.AskAbandon? && session.item < I_COUNT
  {
    if !yes || !StillOk(db, session) then (db, Idle)
    else
      var AskAbandon(s, u, sect, unit, item, m) := session;
      var (sect', unit') := Moved(sect, unit, item, m);
      (WriteBack(db, s, u, sect', unit', owners), Idle)
  }

  function Step(st: State, a: Action): State
    requires SessionsOk(st)
  {
    if a.t >= |st.sessions| then st
    else
      var session := st.sessions[a.t];
      match a
      case Begin(t, u, item, loading) =>
        st.(sessions := st.sessions[t := BeginStep(st.db, session, u, item, loading)])
      case Amount(t, p, amount, asks, owners) =>
        if !session.AskAmount? then st
        else
          var (db, session') := AmountStep(st.db, session, p, amount, asks, owners);
          State(db, st.sessions[t := session'])
      case Confirm(t, yes, owners) =>
        if !session.AskAbandon? then st
        else
          var (db, session') := ConfirmStep(st.db, session, yes, owners);
          State(db, st.sessions[t := session'])
  }

  // What every step keeps

  /** Sessions know valid items; amounts they are about to move are possible for the copies they have. */
  ghost predicate SessionsOk(st: State) {
    forall t :: 0 <= t < |st.sessions| ==> SessionOk(st.sessions[t])
  }

  ghost predicate SessionOk(session: Session) {
    && (!session.Idle? ==> session.item < I_COUNT)
    && (session.AskAbandon? ==>
          Possible(session.sect.items[session.item], session.unit.items[session.item],
                   session.unit.max[session.item], session.m))
  }

  ghost predicate AmountsOk(db: Db) {
    && (forall s, i :: 0 <= s < |db.sects| && 0 <= i < I_COUNT ==> 0 <= db.sects[s].items[i] <= ITEM_MAX)
    && (forall u, i :: 0 <= u < |db.units| && 0 <= i < I_COUNT ==>
          0 <= db.units[u].items[i] <= db.units[u].max[i] <= ITEM_MAX)
  }

  function SectorAmount(item: nat): Sect -> int
    requires item < I_COUNT
  {
    (sect: Sect) => sect.items[item]
  }

  function InSectors(sects: seq<Sect>, item: nat): int
    requires item < I_COUNT
  {
    SumOf(sects, SectorAmount(item))
  }

  function UnitAmount(item: nat): Unit -> int
    requires item < I_COUNT
  {
    (unit: Unit) => unit.items[item]
  }

  function OnUnits(units: seq<Unit>, item: nat): int
    requires item < I_COUNT
  {
    SumOf(units, UnitAmount(item))
  }

  /** How much of an item there is, wherever it is. */
  function Total(db: Db, item: nat): int
    requires item < I_COUNT
  {
    InSectors(db.sects, item) + OnUnits(db.units, item)
  }

  lemma SectorUpdate(sects: seq<Sect>, s: nat, sect: Sect, item: nat)
    requires s < |sects| && item < I_COUNT
    ensures InSectors(sects[s := sect], item) == InSectors(sects, item) - sects[s].items[item] + sect.items[item]
  {
    SumUpdate(sects, s, sect, SectorAmount(item));
  }

  lemma UnitUpdate(units: seq<Unit>, u: nat, unit: Unit, item: nat)
    requires u < |units| && item < I_COUNT
    ensures OnUnits(units[u := unit], item) == OnUnits(units, item) - units[u].items[item] + unit.items[item]
  {
    SumUpdate(units, u, unit, UnitAmount(item));
  }

  /** Goods move from a sector to a unit there (or back), and nothing else changes hands. */
  ghost predicate Transfer(db: Db, db': Db, s: nat, u: nat, item: nat, m: int) {
    && |db'.sects| == |db.sects| && |db'.units| == |db.units| && s < |db.sects| && u < |db.units| && item < I_COUNT
    && db'.sects == db.sects[s := db'.sects[s]] && db'.units == db.units[u := db'.units[u]]
    && db'.sects[s].items == db.sects[s].items[item := db.sects[s].items[item] - m]
    && db'.units[u].items == db.units[u].items[item := db.units[u].items[item] + m]
    && db'.units[u].max == db.units[u].max
  }

  /** Writing back copies that are still good is a transfer between the records as they are now. */
  lemma WriteBackIsTransfer(db: Db, s: nat, u: nat, item: nat, m: int, owners: Owners)
    requires s < |db.sects| && u < |db.units| && item < I_COUNT && AmountsOk(db)
    requires Possible(db.sects[s].items[item], db.units[u].items[item], db.units[u].max[item], m)
    ensures var (sect', unit') := Moved(db.sects[s], db.units[u], item, m);
            Transfer(db, WriteBack(db, s, u, sect', unit', owners), s, u, item, m)
  {
    var (sect', unit') := Moved(db.sects[s], db.units[u], item, m);
    PrewriteKeeps(sect'.items);
    PrewriteKeeps(unit'.items);
  }

  /** A transfer conserves every item, and keeps amounts within limits when it is possible. */
  lemma TransferConserves(db: Db, db': Db, s: nat, u: nat, item: nat, m: int, i: nat)
    requires Transfer(db, db', s, u, item, m) && i < I_COUNT && AmountsOk(db)
    requires Possible(db.sects[s].items[item], db.units[u].items[item], db.units[u].max[item], m)
    ensures Total(db', i) == Total(db, i) && AmountsOk(db')
  {
    SectorUpdate(db.sects, s, db'.sects[s], i);
    UnitUpdate(db.units, u, db'.units[u], i);
  }

  /** What the re-checks are for: writing back copies conserves an item exactly when they account for what is there. */
  lemma {:induction false} WriteBackConserves(db: Db, s: nat, u: nat, sect: Sect, unit: Unit, owners: Owners, i: nat)
    requires s < |db.sects| && u < |db.units| && i < I_COUNT
    requires 0 <= sect.items[i] <= ITEM_MAX && 0 <= unit.items[i] <= ITEM_MAX
    ensures Total(WriteBack(db, s, u, sect, unit, owners), i) == Total(db, i)
            <==> sect.items[i] + unit.items[i] == db.sects[s].items[i] + db.units[u].items[i]
  {
    var db' := WriteBack(db, s, u, sect, unit, owners);
    SectorUpdate(db.sects, s, db'.sects[s], i);
    UnitUpdate(db.units, u, db'.units[u], i);
  }

  ghost predicate PossibleTransfer(db: Db, db': Db, s: nat, u: nat, item: nat, m: int) {
    && Transfer(db, db', s, u, item, m)
    && Possible(db.sects[s].items[item], db.units[u].items[item], db.units[u].max[item], m)
  }

  lemma MovingNothing(sect: Sect, unit: Unit, item: nat)
    requires item < I_COUNT
    ensures Moved(sect, unit, item, 0) == (sect, unit)
  {
    assert sect.items[item := sect.items[item] - 0] == sect.items;
    assert unit.items[item := unit.items[item] + 0] == unit.items;
  }

  // What answers at prompts do

  /** The amount that will move, going by the amounts there are. */
  ghost function Due(sect: Sect, unit: Unit, item: nat, loading: bool, amount: int): int
    requires item < I_COUNT
  {
    var there, aboard, room := sect.items[item], unit.items[item], unit.max[item];
    if amount < 0 then
      Max(Max(0, there + aboard - ITEM_MAX), Min(-amount, Min(room, there + aboard))) - aboard
    else if loading then Min(amount, Min(there, room - aboard))
    else -Min(amount, Min(aboard, ITEM_MAX - there))
  }

  /** Only owners take goods away, and civilians do not go where others live. */
  ghost predicate MayMove(p: Player, sect: Sect, unit: Unit, item: nat, m: int) {
    && m != 0
    && (p.god || p.cnum == if m < 0 then unit.own else sect.own)
    && (item == I_CIVIL ==> sect.oldown == unit.own)
  }

  /** Copies are good. */
  ghost predicate Unchanged(db: Db, s: nat, u: nat, sect: Sect, unit: Unit) {
    s < |db.sects| && db.sects[s] == sect && u < |db.units| && db.units[u] == unit
  }

  ghost function Exposure(own: Plague, other: Plague): Plague {
    if own == Healthy && other == Infect then Exposed else own
  }

  /** The records after m has been moved from the sector to the unit, and the plague has had its chance. */
  ghost predicate MovedAndWritten(db: Db, db': Db, s: nat, u: nat, item: nat, m: int, owners: Owners) {
    && s < |db.sects| && u < |db.units| && item < I_COUNT
    && var (sect, unit) := (db.sects[s], db.units[u]);
    && db' == Db(db.sects[s := Sect(owners.sectOwn, owners.sectOldown, sect.items[item := sect.items[item] - m],
                                    Exposure(sect.pstage, unit.pstage))],
                 db.units[u := unit.(own := owners.unitOwn, items := unit.items[item := unit.items[item] + m],
                                     pstage := Exposure(unit.pstage, sect.pstage),
                                     harden := if item == I_MILIT && m > 0 && !unit.isShip then 0 else unit.harden)])
  }

  lemma WritesMoved(db: Db, s: nat, u: nat, item: nat, m: int, owners: Owners)
    requires s < |db.sects| && u < |db.units| && item < I_COUNT && AmountsOk(db)
    requires Possible(db.sects[s].items[item], db.units[u].items[item], db.units[u].max[item], m)
    ensures var (sect', unit') := Moved(db.sects[s], db.units[u], item, m);
            MovedAndWritten(db, WriteBack(db, s, u, sect', unit', owners), s, u, item, m, owners)
  {
    var (sect', unit') := Moved(db.sects[s], db.units[u], item, m);
    PrewriteKeeps(sect'.items);
    PrewriteKeeps(unit'.items);
  }

  lemma WritesUnmoved(db: Db, s: nat, u: nat, item: nat, owners: Owners)
    requires s < |db.sects| && u < |db.units| && item < I_COUNT && AmountsOk(db)
    ensures MovedAndWritten(db, WriteBack(db, s, u, db.sects[s], db.units[u], owners), s, u, item, 0, owners)
  {
    MovingNothing(db.sects[s], db.units[u], item);
    WritesMoved(db, s, u, item, 0, owners);
  }

  lemma AmountIsDue(sect: Sect, unit: Unit, item: nat, loading: bool, amount: int)
    requires item < I_COUNT && 0 <= sect.items[item] <= ITEM_MAX
    requires 0 <= unit.items[item] <= unit.max[item] <= ITEM_MAX
    ensures MoveAmount(sect.items[item], unit.items[item], unit.max[item], loading, amount)
            == Due(sect, unit, item, loading, amount)
    ensures Possible(sect.items[item], unit.items[item], unit.max[item], Due(sect, unit, item, loading, amount))
  {
    if amount < 0 {
      LevelsAmount(sect.items[item], unit.items[item], unit.max[item], loading, amount);
    } else if loading {
      LoadsAmount(sect.items[item], unit.items[item], unit.max[item], amount);
    } else {
      UnloadsAmount(sect.items[item], unit.items[item], unit.max[item], amount);
    }
  }

  lemma CommOkIsMayMove(p: Player, sect: Sect, unit: Unit, item: nat, m: int)
    ensures LoadCommOk(p, sect, unit.own, item, m) <==> MayMove(p, sect, unit, item, m)
  {
  }

  /**
   What answering the prompt for an amount does: nothing when the records have
   changed; copies are just written back when the move is not allowed; else the
   amount due is moved, or confirmation of it asked for.
   */
  lemma AmountIsTransfer(db: Db, session: Session, p: Player, amount: int, asks: bool, owners: Owners)
    requires session.AskAmount? && SessionOk(session) && AmountsOk(db)
    ensures var (db', session') := AmountStep(db, session, p, amount, asks, owners);
            var AskAmount(s, u, sect, unit, item, loading) := session;
            && SessionOk(session')
            && if !Unchanged(db, s, u, sect, unit) then db' == db && session' == Idle
               else
                 var m := Due(sect, unit, item, loading, amount);
                 if !MayMove(p, sect, unit, item, m) then
                   MovedAndWritten(db, db', s, u, item, 0, owners) && session' == Idle
                 else if unit.isShip && asks then
                   db' == db && session' == AskAbandon(s, u, sect, unit, item, m)
                 else
                   MovedAndWritten(db, db', s, u, item, m, owners) && session' == Idle
  {
    hide WriteBack, Moved, LoadCommOk, MovedAndWritten, MayMove, MoveAmount, Due, Possible;
    if StillOk(db, session) {
      var AskAmount(s, u, sect, unit, item, loading) := session;
      AmountIsDue(sect, unit, item, loading, amount);
      var m := Due(sect, unit, item, loading, amount);
      CommOkIsMayMove(p, sect, unit, item, m);
      WritesMoved(db, s, u, item, m, owners);
      WritesUnmoved(db, s, u, item, owners);
    }
  }

  /**
   Confirming: yes moves the amount worked out before the prompt, provided the
   records have not changed; otherwise nothing happens.
   */
  lemma ConfirmIsTransfer(db: Db, session: Session, yes: bool, owners: Owners)
    requires session.AskAbandon? && SessionOk(session) && AmountsOk(db)
    ensures var (db', session') := ConfirmStep(db, session, yes, owners);
            var AskAbandon(s, u, sect, unit, item, m) := session;
            && session' == Idle
            && if yes && Unchanged(db, s, u, sect, unit) then MovedAndWritten(db, db', s, u, item, m, owners)
               else db' == db
  {
    hide WriteBack, Moved, MovedAndWritten, Possible;
    if yes && StillOk(db, session) {
      WritesMoved(db, session.s, session.u, session.item, session.m, owners);
    }
  }

  /** Moving is a transfer between the records as they are now. */
  lemma MovedIsTransfer(db: Db, db': Db, s: nat, u: nat, item: nat, m: int, owners: Owners)
    requires MovedAndWritten(db, db', s, u, item, m, owners)
    ensures Transfer(db, db', s, u, item, m)
  {
  }

  lemma NothingPossible(db: Db, s: nat, u: nat, item: nat)
    requires s < |db.sects| && u < |db.units| && item < I_COUNT && AmountsOk(db)
    ensures Possible(db.sects[s].items[item], db.units[u].items[item], db.units[u].max[item], 0)
  {
  }

  /** So is whatever answering prompts does, if it does anything. */
  lemma AnswersAreTransfers(db: Db, session: Session, a: Action)
    requires SessionOk(session) && AmountsOk(db)
    ensures a.Amount? && session.AskAmount? ==>
              var db' := AmountStep(db, session, a.player, a.amount, a.asks, a.owners).0;
              db' == db || exists m :: PossibleTransfer(db, db', session.s, session.u, session.item, m)
    ensures a.Confirm? && session.AskAbandon? ==>
              var db' := ConfirmStep(db, session, a.yes, a.owners).0;
              db' == db || exists m :: PossibleTransfer(db, db', session.s, session.u, session.item, m)
  {
    hide MovedAndWritten, Transfer, Possible, AmountStep, ConfirmStep, AmountsOk, Due, MayMove;
    if a.Amount? && session.AskAmount? {
      var AskAmount(s, u, sect, unit, item, loading) := session;
      AmountIsTransfer(db, session, a.player, a.amount, a.asks, a.owners);
      if Unchanged(db, s, u, sect, unit) {
        var m := Due(sect, unit, item, loading, a.amount);
        DuePossible(db, s, u, item, loading, a.amount);
        NothingPossible(db, s, u, item);
        var db' := AmountStep(db, session, a.player, a.amount, a.asks, a.owners).0;
        var k := if MayMove(a.player, sect, unit, item, m) then m else 0;
        if db' != db {
          MovedIsTransfer(db, db', s, u, item, k, a.owners);
          assert PossibleTransfer(db, db', s, u, item, k);
        }
      }
    }
    if a.Confirm? && session.AskAbandon? {
      var AskAbandon(s, u, sect, unit, item, m) := session;
      ConfirmIsTransfer(db, session, a.yes, a.owners);
      if a.yes && Unchanged(db, s, u, sect, unit) {
        var db' := ConfirmStep(db, session, a.yes, a.owners).0;
        MovedIsTransfer(db, db', s, u, item, m, a.owners);
        assert PossibleTransfer(db, db', s, u, item, m);
      }
    }
  }

  lemma DuePossible(db: Db, s: nat, u: nat, item: nat, loading: bool, amount: int)
    requires s < |db.sects| && u < |db.units| && item < I_COUNT && AmountsOk(db)
    ensures Possible(db.sects[s].items[item], db.units[u].items[item], db.units[u].max[item],
                     Due(db.sects[s], db.units[u], item, loading, amount))
  {
    AmountIsDue(db.sects[s], db.units[u], item, loading, amount);
  }

  /** However stale a command's copies, a step conserves every item and keeps all amounts within their limits. */
  lemma StepConserves(st: State, a: Action, i: nat)
    requires SessionsOk(st) && AmountsOk(st.db) && i < I_COUNT
    ensures SessionsOk(Step(st, a)) && AmountsOk(Step(st, a).db) && Total(Step(st, a).db, i) == Total(st.db, i)
  {
    hide AmountStep, ConfirmStep, AmountsOk, Total, Transfer, Possible, BeginStep, MovedAndWritten, Due, MayMove;
    if a.t < |st.sessions| {
      var session := st.sessions[a.t];
      assert SessionOk(session);
      BeginKeepsSession(st.db, session, a);
      AnswersAreTransfers(st.db, session, a);
      if a.Amount? && session.AskAmount? {
        AmountIsTransfer(st.db, session, a.player, a.amount, a.asks, a.owners);
        KeptByTransfers(st.db, AmountStep(st.db, session, a.player, a.amount, a.asks, a.owners).0,
                        session.s, session.u, session.item, i);
      } else if a.Confirm? && session.AskAbandon? {
        ConfirmIsTransfer(st.db, session, a.yes, a.owners);
        KeptByTransfers(st.db, ConfirmStep(st.db, session, a.yes, a.owners).0,
                        session.s, session.u, session.item, i);
        IdleIsOk();
      }
    }
  }

  lemma IdleIsOk()
    ensures SessionOk(Idle)
  {
  }

  lemma BeginKeepsSession(db: Db, session: Session, a: Action)
    requires SessionOk(session)
    ensures a.Begin? ==> SessionOk(BeginStep(db, session, a.u, a.item, a.loading))
  {
  }

  lemma KeptByTransfers(db: Db, db': Db, s: nat, u: nat, item: nat, i: nat)
    requires AmountsOk(db) && i < I_COUNT
    requires db' == db || exists m :: PossibleTransfer(db, db', s, u, item, m)
    ensures AmountsOk(db') && Total(db', i) == Total(db, i)
  {
    hide AmountsOk, Total, Transfer;
    if db' != db {
      var m :| PossibleTransfer(db, db', s, u, item, m);
      TransferConserves(db, db', s, u, item, m, i);
    }
  }

  /** No step of a command touches other commands. */
  lemma StepKeepsOthers(st: State, a: Action, t: nat)
    requires SessionsOk(st) && t != a.t
    ensures |Step(st, a).sessions| == |st.sessions|
    ensures t < |st.sessions| ==> Step(st, a).sessions[t] == st.sessions[t]
  {
    hide AmountStep, ConfirmStep, BeginStep;
  }

  /**
   A whole command.  In state st it begins, and reads the records of unit u and the
   sector it is in; by state st1, other commands may have run.  If they have left
   both records alone, and the player may move the goods, the amount due is moved;
   otherwise no goods are.
   */
  lemma CommandMoves(st: State, t: nat, u: nat, item: nat, loading: bool, st1: State, p: Player, amount: int,
                     owners: Owners)
    requires Good(st) && Good(st1) && t < |st.sessions| == |st1.sessions| && st.sessions[t] == Idle
    requires u < |st.db.units| && st.db.units[u].at < |st.db.sects| && item < I_COUNT
    requires st1.sessions[t] == Step(st, Begin(t, u, item, loading)).sessions[t]
    ensures var s := st.db.units[u].at;
            var (sect, unit) := (st.db.sects[s], st.db.units[u]);
            var st2 := Step(st1, Amount(t, p, amount, false, owners));
            var m := Due(sect, unit, item, loading, amount);
            && st2.sessions[t] == Idle
            && if !Unchanged(st1.db, s, u, sect, unit) then st2.db == st1.db
               else MovedAndWritten(st1.db, st2.db, s, u, item,
                                    if MayMove(p, sect, unit, item, m) then m else 0, owners)
  {
    hide AmountStep, MovedAndWritten, Due, MayMove, AmountsOk;
    var session := st1.sessions[t];
    assert SessionOk(session);
    AmountIsTransfer(st1.db, session, p, amount, false, owners);
  }

  // Whole runs

  ghost predicate Good(st: State) {
    SessionsOk(st) && AmountsOk(st.db)
  }

  ghost function Run(st: State, actions: seq<Action>): (st': State)
    requires Good(st)
    ensures Good(st')
    decreases |actions|
  {
    if actions == [] then st
    else
      StepConserves(st, actions[0], 0);
      Run(Step(st, actions[0]), actions[1..])
  }

  /** Over every interleaving of any number of commands, each item's total stays what it was. */
  lemma {:induction false} RunConserves(st: State, actions: seq<Action>, i: nat)
    requires Good(st) && i < I_COUNT
    ensures Total(Run(st, actions).db, i) == Total(st.db, i)
    decreases |actions|
  {
    hide Step, Total, SessionsOk, AmountsOk;
    if actions != [] {
      StepConserves(st, actions[0], i);
      RunConserves(Step(st, actions[0]), actions[1..], i);
    }
  }
}
