// Cover mode (CoverController.cs): a player places fragments of a creature on
// Cell10s of their own map.  The covered area and the score computed from it
// are geometry and are not modelled; what is modelled is where the fragments
// go.

module Cover {
  import opened Common
  import opened Creatures
  import opened Progression
  import opened Records

  /** A player's `placedCreatures`: Cell10 to placement. */
  type Placements = map<string, CoverModeEntry>

  /** The count already placed on the cell; `0` for a cell with no placement. */
  function Previous(placed: Placements, cell: string): int {
    if cell in placed then placed[cell].creatureFragmentCount else 0
  }

  /**
   * The count stored for a request: the request, cut down to what the record
   * has available once the cell's old fragments are handed back to it.
   */
  function StoredCount(r: CreatureRecord, prev: int, request: int): int {
    Min(r.currentAvailable + prev, request)
  }

  /** The record after a placement: old fragments handed back, the stored count taken. */
  function Covered(r: CreatureRecord, prev: int, request: int): (r': CreatureRecord)
    ensures r'.currentAvailable == r.currentAvailable + prev - StoredCount(r, prev, request)
    ensures r'.currentAvailable >= 0
    ensures r' == r.(currentAvailable := r'.currentAvailable)
  {
    r.(currentAvailable := r.currentAvailable + prev - StoredCount(r, prev, request))
  }

  /**
   * With nothing negative involved, a placement only moves fragments between
   * the record and the cell: their sum is the same before and after, and the
   * cell never holds more than that sum.
   */
  lemma CoverConserves(r: CreatureRecord, prev: int, request: int)
    requires r.currentAvailable >= 0 && prev >= 0 && request >= 0
    ensures var stored := if request == 0 then 0 else StoredCount(r, prev, request);
      Covered(r, prev, request).currentAvailable + stored == r.currentAvailable + prev &&
      0 <= stored <= r.currentAvailable + prev
  {
  }

  /** A request of zero hands the whole cell back to the record. */
  lemma ZeroRequestRefunds(r: CreatureRecord, prev: int)
    requires r.currentAvailable + prev >= 0
    ensures Covered(r, prev, 0).currentAvailable == r.currentAvailable + prev
  {
  }

  /**
   * The reported change is the request minus the old count, worked out
   * before the cut: it exceeds the change actually stored by exactly the
   * part of the request the record could not cover, and equals it exactly
   * when the request fits.  Asking for 10 with 3 available on an empty cell
   * reports 10 placed while 3 are stored.
   */
  lemma ReportedChangeIgnoresCut(r: CreatureRecord, prev: int, request: int)
    requires request != 0
    ensures var reported, stored := request - prev, StoredCount(r, prev, request) - prev;
      var cut := if request > r.currentAvailable + prev then request - (r.currentAvailable + prev) else 0;
      reported - stored == cut && (reported == stored <==> request <= r.currentAvailable + prev)
  {
  }

  /**
   * `UpdatePlacedCreature`: sets the cell's placement to `fragmentsUsed` of
   * `creatureId` (a new total) and returns the requested change.  The cell's
   * old fragments go back to the record named now, whichever creature they
   * were.  A request of zero deletes the placement.  A missing record throws
   * before anything is saved.
   */
  method UpdatePlacedCreature(creatures: CreatureData, placed: Placements, cell: string, inBounds: bool,
                              creatureId: int, fragmentsUsed: int, byId: map<int, Creature>)
    returns (creatures': CreatureData, placed': Placements, change: int, failed: bool)
    requires Coherent(byId, creatures)
    ensures !inBounds ==> change == 0 && !failed && creatures' == creatures && placed' == placed
    ensures inBounds && creatureId !in creatures ==> failed && creatures' == creatures && placed' == placed
    ensures inBounds && creatureId in creatures ==>
      var r, prev := creatures[creatureId], Previous(placed, cell);
      var n := StoredCount(r, prev, fragmentsUsed);
      !failed && change == fragmentsUsed - prev &&
      creatures' == creatures[creatureId := Covered(r, prev, fragmentsUsed)] &&
      creatures'[creatureId].currentAvailable >= 0 &&
      (fragmentsUsed == 0 ==> placed' == placed - {cell}) &&
      (fragmentsUsed != 0 ==> placed' == placed[cell := CoverModeEntry(creatureId, n, cell, StackScouting(byId, creatureId, n))])
  {
    if !inBounds {
      return creatures, placed, 0, false;
    }
    if creatureId !in creatures {
      return creatures, placed, 0, true;
    }
    var thisCreature := creatures[creatureId];
    var prev := 0;
    if cell !in placed {
      change := fragmentsUsed;
    } else {
      prev := placed[cell].creatureFragmentCount;
      change := fragmentsUsed - prev;
    }
    placed' := placed;
    if fragmentsUsed == 0 {
      placed' := placed' - {cell};
    }
    var available := thisCreature.currentAvailable + prev;
    var used := Min(available, fragmentsUsed);
    available := available - used;
    creatures' := creatures[creatureId := thisCreature.(currentAvailable := available)];
    var ci := new PlayerCreatureInfo(creatureId);
    ci.FastBoost(used, byId);
    if fragmentsUsed != 0 {
      placed' := placed'[cell := CoverModeEntry(creatureId, used, cell, ci.scouting)];
    }
    failed := false;
  }
}
