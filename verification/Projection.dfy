/** Ownership is stored twice, on the entry and in the roster slot; the check that both views agree. */
module Projection {
  import opened Base
  import opened Errors
  import opened FantasyDomain
  import opened FantasyTransactions

  function FilledIds(slots: seq<Slot>): seq<Id> {
    if slots == [] then []
    else
      var last := slots[|slots| - 1];
      FilledIds(slots[..|slots| - 1]) + if last.playerId.Some? then [last.playerId.value] else []
  }

  /** Every filled slot of every roster, in order. */
  function RosteredIds(rosters: seq<Snapshot>): seq<Id> {
    if rosters == [] then []
    else RosteredIds(rosters[..|rosters| - 1]) + FilledIds(rosters[|rosters| - 1].slots)
  }

  predicate SlotAgrees(entries: seq<Entry>, teamId: Id, slot: Slot) {
    slot.playerId.Some? ==>
      var entry := EntryOf(entries, slot.playerId.value);
      entry.Some? && entry.value.ownership.teamId == Some(teamId) && Owned(entry.value)
  }

  predicate SlotsAgree(entries: seq<Entry>, teamId: Id, slots: seq<Slot>) {
    forall slot :: slot in slots ==> SlotAgrees(entries, teamId, slot)
  }

  predicate RostersAgree(entries: seq<Entry>, rosters: seq<Snapshot>) {
    forall roster :: roster in rosters ==> SlotsAgree(entries, roster.teamId, roster.slots)
  }

  function CheckProjection(entries: seq<Entry>, rosters: seq<Snapshot>): Check<Fault> {
    if !RostersAgree(entries, rosters) then Fail(Refuse(OwnershipConflict))
    else if !Distinct(RosteredIds(rosters)) then Fail(Refuse(InvalidCommand))
    else Need(forall entry :: entry in entries ==> (Owned(entry) <==> entry.id in RosteredIds(rosters)),
              Refuse(OwnershipConflict))
  }

  /** The inner loop: one roster's slots. */
  method CollectFilled(entries: seq<Entry>, teamId: Id, slots: seq<Slot>) returns (agree: bool, ids: seq<Id>)
    ensures agree <==> SlotsAgree(entries, teamId, slots)
    ensures agree ==> ids == FilledIds(slots)
  {
    ids := [];
    for j := 0 to |slots|
      invariant ids == FilledIds(slots[..j])
      invariant forall k :: 0 <= k < j ==> SlotAgrees(entries, teamId, slots[k])
    {
      var slot := slots[j];
      assert slots[..j + 1][..j] == slots[..j];
      if slot.playerId.Some? {
        if !SlotAgrees(entries, teamId, slot) {
          return false, ids;
        }
        ids := ids + [slot.playerId.value];
      }
    }
    assert slots[..|slots|] == slots;
    return true, ids;
  }

  method AssertOwnershipProjection(entries: seq<Entry>, rosters: seq<Snapshot>) returns (verdict: Check<Fault>)
    ensures verdict == CheckProjection(entries, rosters)
  {
    var rosteredIds: seq<Id> := [];
    for i := 0 to |rosters|
      invariant rosteredIds == RosteredIds(rosters[..i])
      invariant forall k :: 0 <= k < i ==> SlotsAgree(entries, rosters[k].teamId, rosters[k].slots)
    {
      var roster := rosters[i];
      assert rosters[..i + 1][..i] == rosters[..i];
      var agree, ids := CollectFilled(entries, roster.teamId, roster.slots);
      if !agree {
        assert roster in rosters;
        return Fail(Refuse(OwnershipConflict));
      }
      rosteredIds := rosteredIds + ids;
    }
    assert rosters[..|rosters|] == rosters;
    if !Distinct(rosteredIds) {
      return Fail(Refuse(InvalidCommand));
    }
    return Need(forall entry :: entry in entries ==> (Owned(entry) <==> entry.id in rosteredIds),
                Refuse(OwnershipConflict));
  }
}
