/** The client's live crowd levels: each broadcast replaces the whole map
    from booth id to level and count, and a booth card prefers the live
    level over the one in the booth list. */
module CrowdStore {
  import opened Domain
  import CrowdStatusService

  datatype LevelCount = LevelCount(level: CrowdLevel, count: int)

  /** The map a broadcast yields: booths in list order, a later entry for
      the same booth overwriting an earlier one. */
  function LevelsOf(booths: seq<CrowdStatusService.BoothCrowdStatus>): map<Id, LevelCount>
  {
    if booths == [] then map[]
    else
      var last := booths[|booths| - 1];
      LevelsOf(booths[..|booths| - 1])[last.boothId := LevelCount(last.level, last.count)]
  }

  /** The keys are exactly the broadcast's booth ids. */
  lemma {:induction false} LevelsOfKeys(booths: seq<CrowdStatusService.BoothCrowdStatus>)
    ensures forall id :: id in LevelsOf(booths) <==> exists i :: 0 <= i < |booths| && booths[i].boothId == id
  {
    if booths != [] {
      var init := booths[..|booths| - 1];
      LevelsOfKeys(init);
      forall id | (exists i :: 0 <= i < |booths| && booths[i].boothId == id)
        ensures id in LevelsOf(booths)
      {
        var i :| 0 <= i < |booths| && booths[i].boothId == id;
        if i < |booths| - 1 {
          assert init[i] == booths[i];
        }
      }
      forall id | id in LevelsOf(booths)
        ensures exists i :: 0 <= i < |booths| && booths[i].boothId == id
      {
        if id != booths[|booths| - 1].boothId {
          assert id in LevelsOf(init);
          var i :| 0 <= i < |init| && init[i].boothId == id;
          assert booths[i] == init[i];
        }
      }
    }
  }

  /** Each booth id maps to the level and count of its last entry. */
  lemma {:induction false} LevelsOfLastWins(booths: seq<CrowdStatusService.BoothCrowdStatus>, i: int)
    requires 0 <= i < |booths|
    requires forall j :: i < j < |booths| ==> booths[j].boothId != booths[i].boothId
    ensures booths[i].boothId in LevelsOf(booths)
    ensures LevelsOf(booths)[booths[i].boothId] == LevelCount(booths[i].level, booths[i].count)
  {
    if i < |booths| - 1 {
      var init := booths[..|booths| - 1];
      assert init[i] == booths[i];
      LevelsOfLastWins(init, i);
    }
  }

  class CrowdState {
    var boothLevels: map<Id, LevelCount>

    constructor ()
      ensures boothLevels == map[]
    {
      boothLevels := map[];
    }

    /** `updateLevels`: a fresh map is filled entry by entry and replaces
        the old one. */
    method UpdateLevels(booths: seq<CrowdStatusService.BoothCrowdStatus>)
      modifies this
      ensures boothLevels == LevelsOf(booths)
    {
      var levels: map<Id, LevelCount> := map[];
      for i := 0 to |booths|
        invariant levels == LevelsOf(booths[..i])
      {
        assert booths[..i + 1][..i] == booths[..i];
        levels := levels[booths[i].boothId := LevelCount(booths[i].level, booths[i].count)];
      }
      assert booths[..|booths|] == booths;
      boothLevels := levels;
    }
  }

  /** The level a booth card shows: the live one when the map has the
      booth, otherwise the one the booth list carried. */
  function DisplayedLevel(boothLevels: map<Id, LevelCount>, booth: Id, listed: CrowdLevel): (r: CrowdLevel)
    ensures booth in boothLevels ==> r == boothLevels[booth].level
    ensures booth !in boothLevels ==> r == listed
  {
    if booth in boothLevels then boothLevels[booth].level else listed
  }

  /** After a broadcast a card shows the broadcast's level for every booth
      the broadcast lists (its last entry), and the listed level for any
      other booth. */
  lemma DisplayedAfterBroadcast(booths: seq<CrowdStatusService.BoothCrowdStatus>, i: int, listed: CrowdLevel)
    requires 0 <= i < |booths|
    requires forall j :: i < j < |booths| ==> booths[j].boothId != booths[i].boothId
    ensures DisplayedLevel(LevelsOf(booths), booths[i].boothId, listed) == booths[i].level
  {
    LevelsOfLastWins(booths, i);
  }

  lemma DisplayedWhenUnlisted(booths: seq<CrowdStatusService.BoothCrowdStatus>, booth: Id, listed: CrowdLevel)
    requires forall i :: 0 <= i < |booths| ==> booths[i].boothId != booth
    ensures DisplayedLevel(LevelsOf(booths), booth, listed) == listed
  {
    LevelsOfKeys(booths);
  }
}
