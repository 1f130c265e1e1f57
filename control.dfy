// Control mode: teams stack up to fifteen creatures on a place as a pyramid
// sorted by level; an attacker that beats the top creature flips the place,
// one that beats only the bottom creature knocks it out, and a knock-out that
// leaves an empty row collapses the pyramid.  Players name a place by a plus
// code inside it; the lists, owners and scores are stored per place.

module Control {
  import opened Common
  import opened Creatures
  import opened Progression
  import opened Records
  import opened Commands
  import opened Scoring

  /** The Control-mode part of the world. */
  datatype ControlState = ControlState(
    cells: map<string, seq<ClaimData>>,  // each place's "creatures", by the place's id
    owners: map<string, int>,            // each place's "teamOwner"; 0 for none
    totals: seq<int>,                    // the global "team{i}Score", index 0 unused
    queues: Queues)

  /**
   * The two map lookups from a plus code to the id of the place containing
   * it, None for a code in no place: `gameplay` is
   * `AreaTypeInfo.GetSingleGameplayPlaceFromArea`, through which a place's
   * list is read and a claim is saved, and `styled` is
   * `AreaStyle.GetSinglePlaceFromArea`, the place a flip or a knock-out
   * writes.  The map itself is not part of this model.
   */
  datatype Places = Places(gameplay: string -> Option<string>, styled: string -> Option<string>)

  /** The stored list of a place; a place with nothing stored has no occupants. */
  function Occupants(s: ControlState, place: string): seq<ClaimData> {
    if place in s.cells then s.cells[place] else []
  }

  /** `GetCreaturesInArea`: the list of the code's gameplay place; a code in no place throws. */
  function CreaturesInArea(s: ControlState, places: Places, code: string): (r: Option<seq<ClaimData>>)
    ensures r.None? <==> places.gameplay(code).None?
    ensures r.Some? ==> r.value == Occupants(s, places.gameplay(code).value)
  {
    match places.gameplay(code)
    case None => None
    case Some(place) => Some(if place in s.cells then s.cells[place] else [])
  }

  /** Every stored pyramid is sorted by level, at most fifteen high, with valid teams. */
  ghost predicate Valid(s: ControlState) {
    |s.totals| == 5 &&
    forall code :: code in s.cells ==> ValidPyramid(s.cells[code]) && SortedByLevel(s.cells[code])
  }

  // ---------------------------------------------------------------------
  // Notices queued to the occupants' owners
  // ---------------------------------------------------------------------

  function ClaimName(c: ClaimData): string { c.creatureName }

  /** The target of the GRANT queued per occupant of a completed zodiac: creature 52, ten fragments. */
  function ZodiacReward(c: ClaimData): string { "52|10" }

  /** The commands queued for account `a` when every occupant of `cs` is sent `verb`, in order. */
  function Notices(cs: seq<ClaimData>, verb: string, target: ClaimData -> string, a: string): seq<UpdateCommand>
    decreases |cs|
  {
    if cs == [] then []
    else
      var last := cs[|cs| - 1];
      Notices(cs[..|cs| - 1], verb, target, a) +
        (if last.owner == a then [UpdateCommand(verb, target(last))] else [])
  }

  function Owners(cs: seq<ClaimData>): set<string> {
    set i | 0 <= i < |cs| :: cs[i].owner
  }

  /** Every occupant's owner is sent a notice about that occupant. */
  lemma {:induction false} NoticesCover(cs: seq<ClaimData>, verb: string, target: ClaimData -> string, i: int)
    requires 0 <= i < |cs|
    ensures UpdateCommand(verb, target(cs[i])) in Notices(cs, verb, target, cs[i].owner)
    decreases |cs|
  {
    if i < |cs| - 1 {
      NoticesCover(cs[..|cs| - 1], verb, target, i);
    }
  }

  /** Adding an occupant adds at most its own notice, at the end. */
  lemma NoticesSnoc(cs: seq<ClaimData>, c: ClaimData, verb: string, target: ClaimData -> string, a: string)
    ensures Notices(cs + [c], verb, target, a) ==
      Notices(cs, verb, target, a) + (if c.owner == a then [UpdateCommand(verb, target(c))] else [])
  {
    assert (cs + [c])[..|cs|] == cs;
  }

  lemma OwnersSnoc(cs: seq<ClaimData>, c: ClaimData)
    ensures Owners(cs + [c]) == Owners(cs) + {c.owner}
  {
    var r := cs + [c];
    assert r[|cs|] == c;
    forall x | x in Owners(cs) ensures x in Owners(r) {
      var i :| 0 <= i < |cs| && cs[i].owner == x;
      assert r[i] == cs[i];
    }
  }

  /** Only the owners of occupants are sent anything. */
  lemma {:induction false} NoticesOnlyOwners(cs: seq<ClaimData>, verb: string, target: ClaimData -> string, a: string)
    requires a !in Owners(cs)
    ensures Notices(cs, verb, target, a) == []
    decreases |cs|
  {
    if cs != [] {
      var init, last := cs[..|cs| - 1], cs[|cs| - 1];
      assert cs == init + [last];
      OwnersSnoc(init, last);
      NoticesOnlyOwners(init, verb, target, a);
    }
  }

  /** The queues after every occupant of `cs`, in order, is sent `verb`. */
  function NotifyAll(q: Queues, cs: seq<ClaimData>, verb: string, target: ClaimData -> string): Queues
    decreases |cs|
  {
    if cs == [] then q
    else
      var last := cs[|cs| - 1];
      Enqueued(NotifyAll(q, cs[..|cs| - 1], verb, target), last.owner, UpdateCommand(verb, target(last)))
  }

  /** Each account's queue grows by exactly the notices about its own occupants, and only owners gain a queue. */
  lemma {:induction false} NotifyAllPending(q: Queues, cs: seq<ClaimData>, verb: string, target: ClaimData -> string, a: string)
    ensures Pending(NotifyAll(q, cs, verb, target), a) == Pending(q, a) + Notices(cs, verb, target, a)
    ensures NotifyAll(q, cs, verb, target).Keys == q.Keys + Owners(cs)
    decreases |cs|
  {
    if cs != [] {
      var init, last := cs[..|cs| - 1], cs[|cs| - 1];
      assert cs == init + [last];
      NotifyAllPending(q, init, verb, target, a);
      OwnersSnoc(init, last);
    }
  }

  /** The loop of `UpdateAccountPendingCommand` calls over a place's occupants. */
  method NotifyOccupants(q: Queues, cs: seq<ClaimData>, verb: string, target: ClaimData -> string)
    returns (q': Queues)
    ensures forall a :: Pending(q', a) == Pending(q, a) + Notices(cs, verb, target, a)
    ensures q'.Keys == q.Keys + Owners(cs)
  {
    q' := q;
    for i := 0 to |cs|
      invariant q' == NotifyAll(q, cs[..i], verb, target)
    {
      assert cs[..i + 1][..i] == cs[..i];
      q' := UpdateAccountPendingCommand(q', cs[i].owner, verb, target(cs[i]));
    }
    assert cs[..|cs|] == cs;
    forall a ensures Pending(q', a) == Pending(q, a) + Notices(cs, verb, target, a) {
      NotifyAllPending(q, cs, verb, target, a);
    }
    NotifyAllPending(q, cs, verb, target, "");
  }

  // ---------------------------------------------------------------------
  // Flipping a place
  // ---------------------------------------------------------------------

  const NoScores: seq<int> := [0, 0, 0, 0, 0]

  /** Every owner of an occupant of `cs` has been sent `verb` about each of its occupants, and nobody else anything. */
  ghost predicate SentToOwners(s: ControlState, s': ControlState, cs: seq<ClaimData>, verb: string, target: ClaimData -> string) {
    (forall a :: Pending(s'.queues, a) == Pending(s.queues, a) + Notices(cs, verb, target, a)) &&
    s'.queues.Keys == s.queues.Keys + Owners(cs)
  }

  /**
   * The place `place` was cleared of `cs`: left empty and unowned, with the
   * scores of `cs` taken off teams 1 to 4.  With no place nothing but the
   * queues changed.
   */
  ghost predicate ClearedOf(s: ControlState, s': ControlState, place: Option<string>, cs: seq<ClaimData>) {
    |s.totals| == 5 && |s'.totals| == 5 && |cs| <= MaxOccupants &&
    (place.None? ==> s'.cells == s.cells && s'.owners == s.owners && s'.totals == s.totals) &&
    (place.Some? ==>
      s'.cells == s.cells[place.value := []] && s'.owners == s.owners[place.value := 0] &&
      s'.totals[0] == s.totals[0] &&
      forall t :: 1 <= t < 5 ==> s'.totals[t] == s.totals[t] - Scores(cs)[t])
  }

  /**
   * `FlipArea`: every occupant is sent home; then, when the code lies in a
   * place, that place's scores are taken off the team totals and the place
   * is left empty and unowned.
   */
  method FlipArea(s: ControlState, places: Places, code: string, creatures: seq<ClaimData>) returns (s': ControlState)
    requires ValidPyramid(creatures) && |s.totals| == 5
    ensures SentToOwners(s, s', creatures, "RETURN", ClaimName)
    ensures ClearedOf(s, s', places.styled(code), creatures)
  {
    var q := NotifyOccupants(s.queues, creatures, "RETURN", ClaimName);
    s' := s.(queues := q);
    var place := places.styled(code);
    if place.Some? {
      var oldScores := CalculateScores(1.0, creatures);
      var totals := ApplyScoreChange(s.totals, oldScores, NoScores);
      s' := ControlState(s.cells[place.value := []], s.owners[place.value := 0], totals, q);
    }
  }

  /** The thirteen zodiac creatures. */
  const ZodiacEntries: seq<int> := [39, 40, 41, 42, 43, 44, 45, 46, 47, 48, 49, 50, 51]

  predicate HoldsCreature(cs: seq<ClaimData>, id: int) {
    exists i :: 0 <= i < |cs| && cs[i].creatureId == id
  }

  /** Every zodiac creature is among the occupants. */
  predicate ZodiacComplete(cs: seq<ClaimData>) {
    forall j :: 0 <= j < |ZodiacEntries| ==> HoldsCreature(cs, ZodiacEntries[j])
  }

  /** Each owner of a completed zodiac is first sent a GRANT per occupant, then a RETURN per occupant. */
  ghost predicate ZodiacNotices(s: ControlState, s': ControlState, cs: seq<ClaimData>) {
    (forall a :: Pending(s'.queues, a) ==
      Pending(s.queues, a) + Notices(cs, "GRANT", ZodiacReward, a) + Notices(cs, "RETURN", ClaimName, a)) &&
    s'.queues.Keys == s.queues.Keys + Owners(cs)
  }

  /**
   * `SpecialCheck`: when the occupants already hold the whole zodiac, every
   * occupant's owner is queued a GRANT of "52|10" and the place flips.
   * There is no GRANT case among the queued-command verbs, so the grant is
   * dropped when the queue is processed (`ZodiacGrantIgnored`).
   */
  method SpecialCheck(s: ControlState, places: Places, code: string, creatures: seq<ClaimData>)
    returns (s': ControlState, special: bool)
    requires ValidPyramid(creatures) && |s.totals| == 5
    ensures special == ZodiacComplete(creatures)
    ensures !special ==> s' == s
    ensures special ==> ZodiacNotices(s, s', creatures) && ClearedOf(s, s', places.styled(code), creatures)
  {
    special := ZodiacComplete(creatures);
    if !special {
      return s, false;
    }
    var q := NotifyOccupants(s.queues, creatures, "GRANT", ZodiacReward);
    var s1 := s.(queues := q);
    s' := FlipArea(s1, places, code, creatures);
    forall a ensures Pending(s'.queues, a) ==
      Pending(s.queues, a) + Notices(creatures, "GRANT", ZodiacReward, a) + Notices(creatures, "RETURN", ClaimName, a)
    {
      assert Pending(s1.queues, a) == Pending(s.queues, a) + Notices(creatures, "GRANT", ZodiacReward, a);
    }
  }

  /** The zodiac GRANT reaches the queue but not the collection: processing it changes nothing. */
  lemma ZodiacGrantIgnored(p: Progress, c: ClaimData, creatureList: seq<Creature>, byId: map<int, Creature>, parse: Parser)
    requires Coherent(byId, p.files.creatures)
    ensures ApplyCommand(p, UpdateCommand("GRANT", ZodiacReward(c)), creatureList, byId, parse) == Some(p)
  {
  }

  // ---------------------------------------------------------------------
  // Claiming a place
  // ---------------------------------------------------------------------

  /** The places around Toledo where the bats transform. */
  predicate BatCode(code: string) {
    StartsWith(code, "86GQ") || StartsWith(code, "86HQ") || StartsWith(code, "86HR")
  }

  /** The creature a claim of `id` at `code` places: the double bat 17 becomes 59, the triple bat 18 becomes 60. */
  function ClaimedId(id: int, code: string): int {
    if id == 17 && BatCode(code) then 59
    else if id == 18 && BatCode(code) then 60
    else id
  }

  /** Which record the claim marks: the transform's new record, or the source record when the target already existed. */
  function MarkedKey(data: CreatureData, id: int, code: string): int {
    var to := ClaimedId(id, code);
    if to != id && to !in data then to else id
  }

  /** The fields of one of the three counters, read as 0 for a creature the player lacks. */
  function Caught(d: CreatureData, k: int): int { if k in d then d[k].totalCaught else 0 }
  function Available(d: CreatureData, k: int): int { if k in d then d[k].currentAvailable else 0 }
  function AvailableCompete(d: CreatureData, k: int): int { if k in d then d[k].currentAvailableCompete else 0 }

  /** The record a transform creates when the player lacks the target: the source's counters, id 0, level 0. */
  function BatRecord(from: CreatureRecord): CreatureRecord {
    FreshRecord(0).(currentAvailable := from.currentAvailable,
                    currentAvailableCompete := from.currentAvailableCompete,
                    totalCaught := from.totalCaught,
                    toNextLevel := from.toNextLevel)
  }

  function Emptied(r: CreatureRecord): CreatureRecord {
    r.(totalCaught := 0, currentAvailable := 0, currentAvailableCompete := 0)
  }

  /**
   * A bat transform: the source record's counters move onto the target
   * (added to it, or copied into a new record) and the source is emptied.
   */
  function BatMoved(data: CreatureData, from: int, to: int): CreatureData
    requires from in data
  {
    var swapFrom := data[from];
    var target :=
      if to in data then
        var swapTo := data[to];
        swapTo.(totalCaught := swapTo.totalCaught + swapFrom.totalCaught,
                currentAvailable := swapTo.currentAvailable + swapFrom.currentAvailable,
                currentAvailableCompete := swapTo.currentAvailableCompete + swapFrom.currentAvailableCompete)
      else BatRecord(swapFrom);
    data[to := target][from := Emptied(swapFrom)]
  }

  /** A transform creates at most the target, empties the source and conserves each counter. */
  lemma BatMovedConserves(data: CreatureData, from: int, to: int)
    requires from in data && from != to
    ensures var d := BatMoved(data, from, to);
      d.Keys == data.Keys + {to} &&
      Caught(d, from) == 0 && Available(d, from) == 0 && AvailableCompete(d, from) == 0 &&
      Caught(d, from) + Caught(d, to) == Caught(data, from) + Caught(data, to) &&
      Available(d, from) + Available(d, to) == Available(data, from) + Available(data, to) &&
      AvailableCompete(d, from) + AvailableCompete(d, to) == AvailableCompete(data, from) + AvailableCompete(data, to) &&
      (to !in data ==> d[to].id == 0 && d[to].level == 0 && d[to].toNextLevel == data[from].toNextLevel) &&
      (to in data ==> d[to].level == data[to].level && d[to].id == data[to].id) &&
      forall k :: k in data && k != from && k != to ==> d[k] == data[k]
  {
  }

  /** The records after a claim: the bat transform, if any, then the marked record locked to the place. */
  function ClaimedRecords(data: CreatureData, id: int, code: string): CreatureData
    requires id in data
  {
    var to := ClaimedId(id, code);
    var d := if to != id then BatMoved(data, id, to) else data;
    var k := MarkedKey(data, id, code);
    d[k := d[k].(available := false, assignedTo := code)]
  }

  /** The occupant a claim adds: the placed creature, at the level of the record it marked. */
  function ClaimFor(data: CreatureData, sent: ClaimData, code: string): ClaimData
    requires sent.creatureId in data
  {
    var d := ClaimedRecords(data, sent.creatureId, code);
    sent.(creatureId := ClaimedId(sent.creatureId, code), level := d[MarkedKey(data, sent.creatureId, code)].level)
  }

  /** A claim locks exactly the marked record to the place and leaves every other record as it was. */
  lemma ClaimLocksRecord(data: CreatureData, id: int, code: string)
    requires id in data
    ensures var d := ClaimedRecords(data, id, code); var k := MarkedKey(data, id, code);
      k in d && !d[k].available && d[k].assignedTo == code &&
      d.Keys == data.Keys + {ClaimedId(id, code)} &&
      (ClaimedId(id, code) == id ==> d == data[id := data[id].(available := false, assignedTo := code)]) &&
      forall j :: j in data && j != id && j != ClaimedId(id, code) ==> d[j] == data[j]
  {
    if ClaimedId(id, code) != id {
      BatMovedConserves(data, id, ClaimedId(id, code));
    }
  }

  /** When the player already holds the transformed bat, the claim marks, and takes the level of, the emptied source record. */
  lemma BatClaimMarksSource(data: CreatureData, code: string)
    requires 17 in data && 59 in data && BatCode(code)
    ensures MarkedKey(data, 17, code) == 17
    ensures var d := ClaimedRecords(data, 17, code);
      d[17].totalCaught == 0 && d[17].assignedTo == code && d[59].available == data[59].available
  {
  }

  /** The transform and the lock of `ClaimPlace`, done record by record. */
  method LockClaimedCreature(data: CreatureData, sent: ClaimData, code: string)
    returns (data': CreatureData, claim: ClaimData)
    requires sent.creatureId in data
    ensures data' == ClaimedRecords(data, sent.creatureId, code)
    ensures claim == ClaimFor(data, sent, code)
  {
    data' := data;
    var claimId := sent.creatureId;
    var marked := sent.creatureId;
    var swapFrom := data[sent.creatureId];
    if (sent.creatureId == 17 || sent.creatureId == 18) && BatCode(code) {
      claimId := if sent.creatureId == 17 then 59 else 60;
      if claimId in data {
        var swapTo := data[claimId];
        data' := data'[claimId := swapTo.(totalCaught := swapTo.totalCaught + swapFrom.totalCaught,
          currentAvailable := swapTo.currentAvailable + swapFrom.currentAvailable,
          currentAvailableCompete := swapTo.currentAvailableCompete + swapFrom.currentAvailableCompete)];
      } else {
        data' := data'[claimId := BatRecord(swapFrom)];
        marked := claimId;
      }
      data' := data'[sent.creatureId := Emptied(swapFrom)];
    }
    var r := data'[marked];
    data' := data'[marked := r.(available := false, assignedTo := code)];
    claim := sent.(creatureId := claimId, level := r.level);
  }

  /** The claim got past the bounds check, the record lookup, the place lookup and the occupancy check. */
  predicate Admitted(s: ControlState, places: Places, data: CreatureData, code: string, inBounds: bool, sent: ClaimData) {
    inBounds && sent.creatureId in data && places.gameplay(code).Some? &&
    |Occupants(s, places.gameplay(code).value)| < MaxOccupants
  }

  /**
   * The place side of an admitted claim: the zodiac check, then
   * `SaveClaimForArea` on the code's gameplay place, whose score
   * calculation throws on a team outside 0-4.
   */
  method PlaceClaim(s: ControlState, places: Places, code: string, claim: ClaimData)
    returns (s': ControlState, result: Option<bool>)
    requires Valid(s) && places.gameplay(code).Some?
    requires |Occupants(s, places.gameplay(code).value)| < MaxOccupants
    ensures Valid(s')
    ensures var place := places.gameplay(code).value; var cs := Occupants(s, place);
      (ZodiacComplete(cs) ==>
        result == Some(true) && ZodiacNotices(s, s', cs) && ClearedOf(s, s', places.styled(code), cs)) &&
      (!ZodiacComplete(cs) && ValidTeam(claim.team) ==>
        result == Some(true) && s'.queues == s.queues &&
        s'.cells == s.cells[place := SortByLevel(cs + [claim])] &&
        s'.owners == s.owners[place := s'.cells[place][0].team] &&
        s'.totals == ScoreShift(s.totals, Scores(cs), Scores(s'.cells[place]))) &&
      (!ZodiacComplete(cs) && !ValidTeam(claim.team) ==> result == None && s' == s)
  {
    var place := places.gameplay(code).value;
    var placeCreatures := Occupants(s, place);
    var special;
    s', special := SpecialCheck(s, places, code, placeCreatures);
    if special {
      return s', Some(true);
    }
    if !ValidTeam(claim.team) {
      return s, None;
    }
    var stored, owner, totals := SaveClaimForArea(placeCreatures, claim, s.totals);
    s' := s.(cells := s.cells[place := stored], owners := s.owners[place := owner], totals := totals);
    result := Some(true);
  }

  /**
   * `ClaimPlace`: puts one of the player's creatures on the place holding
   * the code.  The record is locked to the code and saved before the place
   * is touched, so a claim whose team the score table cannot hold throws
   * after the record is saved but before the place is.  The fifteen-creature
   * cap counts the whole place, whichever of its codes a claim names.
   */
  method ClaimPlace(s: ControlState, places: Places, data: CreatureData, code: string, inBounds: bool, sent: ClaimData)
    returns (s': ControlState, data': CreatureData, result: Option<bool>)
    requires Valid(s)
    ensures Valid(s')
    ensures !inBounds ==> result == Some(false) && s' == s && data' == data
    ensures inBounds && (sent.creatureId !in data || places.gameplay(code).None?) ==>
      result == None && s' == s && data' == data
    ensures inBounds && sent.creatureId in data && places.gameplay(code).Some? ==>
      (|Occupants(s, places.gameplay(code).value)| >= MaxOccupants ==> result == Some(false) && s' == s && data' == data)
    ensures Admitted(s, places, data, code, inBounds, sent) ==>
      var place := places.gameplay(code).value; var cs := Occupants(s, place);
      data' == ClaimedRecords(data, sent.creatureId, code) &&
      (ZodiacComplete(cs) ==>
        result == Some(true) && ZodiacNotices(s, s', cs) && ClearedOf(s, s', places.styled(code), cs)) &&
      (!ZodiacComplete(cs) && ValidTeam(sent.team) ==>
        result == Some(true) && s'.queues == s.queues &&
        s'.cells == s.cells[place := SortByLevel(cs + [ClaimFor(data, sent, code)])] &&
        s'.owners == s.owners[place := s'.cells[place][0].team] &&
        s'.totals == ScoreShift(s.totals, Scores(cs), Scores(s'.cells[place]))) &&
      (!ZodiacComplete(cs) && !ValidTeam(sent.team) ==> result == None && s' == s)
  {
    if !inBounds {
      return s, data, Some(false);
    }
    if sent.creatureId !in data {
      return s, data, None;
    }
    var placeCreatures := CreaturesInArea(s, places, code);
    if placeCreatures.None? {
      return s, data, None;
    }
    if |placeCreatures.value| >= MaxOccupants {
      return s, data, Some(false);
    }
    var claim;
    data', claim := LockClaimedCreature(data, sent, code);
    s', result := PlaceClaim(s, places, code, claim);
  }

  // ---------------------------------------------------------------------
  // Attacking a place
  // ---------------------------------------------------------------------

  /** A knock-out that leaves 2, 5 or 9 creatures empties a row, so the pyramid collapses. */
  predicate Collapses(count: int) {
    count == 3 || count == 6 || count == 10
  }

  /**
   * `CombatArea`: the attacker fights the top creature of the code's
   * gameplay place, then its bottom one.  A code in no place, an empty
   * place and a creature missing from the catalog throw.  A knock-out
   * queues the loser's return before the write, so when the code lies in no
   * place of the second lookup it throws with only that return queued.
   */
  method CombatArea(s: ControlState, places: Places, code: string, inBounds: bool, sent: ClaimData, byId: map<int, Creature>)
    returns (s': ControlState, result: Option<bool>)
    requires Valid(s)
    ensures Valid(s')
    ensures !inBounds ==> result == Some(false) && s' == s
    ensures result.None? ==> s'.cells == s.cells && s'.owners == s.owners && s'.totals == s.totals
    ensures inBounds && places.gameplay(code).None? ==> result.None? && s' == s
    ensures inBounds && places.gameplay(code).Some? ==>
      var cs := Occupants(s, places.gameplay(code).value);
      var styled := places.styled(code);
      (cs == [] ==> result.None? && s' == s) &&
      (cs != [] && sent.creatureId in byId && cs[0].creatureId in byId && cs[|cs| - 1].creatureId in byId ==>
        var wins := ClaimBeats(sent, cs[0], byId) || ClaimBeats(sent, cs[|cs| - 1], byId);
        (!wins ==> result == Some(false) && s' == s) &&
        (ClaimBeats(sent, cs[0], byId) || (ClaimBeats(sent, cs[|cs| - 1], byId) && Collapses(|cs|)) ==>
          result == Some(true) && SentToOwners(s, s', cs, "RETURN", ClaimName) && ClearedOf(s, s', styled, cs)) &&
        (!ClaimBeats(sent, cs[0], byId) && ClaimBeats(sent, cs[|cs| - 1], byId) && !Collapses(|cs|) ==>
          s'.queues == Enqueued(s.queues, cs[|cs| - 1].owner, UpdateCommand("RETURN", cs[|cs| - 1].creatureName)) &&
          (styled.None? ==> result.None?) &&
          (styled.Some? ==>
            result == Some(true) &&
            s'.cells == s.cells[styled.value := cs[..|cs| - 1]] && s'.owners == s.owners &&
            s'.totals == ScoreShift(s.totals, Scores(cs), Scores(cs[..|cs| - 1])))))
  {
    if !inBounds {
      return s, Some(false);
    }
    var found := CreaturesInArea(s, places, code);
    if found.None? {
      return s, None;
    }
    var placeCreatures := found.value;
    var place := places.styled(code);
    if placeCreatures == [] || sent.creatureId !in byId || placeCreatures[0].creatureId !in byId {
      return s, None;
    }
    var wonTop := CreaturesFight(sent, placeCreatures[0], byId);
    if wonTop {
      s' := FlipArea(s, places, code, placeCreatures);
      return s', Some(true);
    }
    var n := |placeCreatures|;
    var last := placeCreatures[n - 1];
    if last.creatureId !in byId {
      return s, None;
    }
    var wonBottom := CreaturesFight(sent, last, byId);
    if !wonBottom {
      return s, Some(false);
    }
    if Collapses(n) {
      s' := FlipArea(s, places, code, placeCreatures);
      return s', Some(true);
    }
    var q := UpdateAccountPendingCommand(s.queues, last.owner, "RETURN", last.creatureName);
    if place.None? {
      return s.(queues := q), None;
    }
    var remaining, totals := RemoveCreatureFromControl(placeCreatures, n - 1, s.totals);
    assert remaining == placeCreatures[..n - 1];
    RemovalKeepsSorted(placeCreatures, n - 1);
    SortByLevelKeepsSorted(remaining);
    s' := ControlState(s.cells[place.value := remaining], s.owners, totals, q);
    result := Some(true);
  }

  /** A knock-out without collapse shrinks the pyramid by exactly its bottom creature and keeps it sorted. */
  lemma KnockOutKeepsPyramid(cs: seq<ClaimData>)
    requires ValidPyramid(cs) && SortedByLevel(cs) && |cs| > 0
    ensures var rest := cs[..|cs| - 1];
      |rest| == |cs| - 1 && SortedByLevel(rest) && ValidPyramid(rest) &&
      multiset(rest) + multiset{cs[|cs| - 1]} == multiset(cs)
  {
    RemovalKeepsSorted(cs, |cs| - 1);
    assert cs[..|cs| - 1] + [cs[|cs| - 1]] == cs;
  }
}
