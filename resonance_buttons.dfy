/** The two resonance buttons under a learning record. A click flips the
    viewer's resonance of that type at once (optimistic update) and sends
    the toggle; if the request fails the flip is undone. While a request is
    pending further clicks are ignored. */
module ResonanceButtons {
  import opened Domain
  import opened Sequences
  import ResonanceService
  import LearningRecordService
  import Repositories

  /** What the component shows: the two counters, the names of the viewer's
      own resonance types, and whether a request is pending. */
  datatype ButtonState = ButtonState(supportCount: nat, sharedCount: nat, myResonances: seq<string>, loading: bool)

  function Count(s: ButtonState, t: ResonanceType): nat
  {
    if t == SUPPORT then s.supportCount else s.sharedCount
  }

  function OtherType(t: ResonanceType): (o: ResonanceType)
    ensures o != t
  {
    if t == SUPPORT then SHARED_EXPERIENCE else SUPPORT
  }

  /** The state with the counter of `t` set to `c`. */
  function WithCount(s: ButtonState, t: ResonanceType, c: nat): (r: ButtonState)
    ensures Count(r, t) == c && Count(r, OtherType(t)) == Count(s, OtherType(t))
    ensures r.myResonances == s.myResonances && r.loading == s.loading
  {
    if t == SUPPORT then s.(supportCount := c) else s.(sharedCount := c)
  }

  /** The button of `t` is highlighted. */
  predicate IsActive(s: ButtonState, t: ResonanceType)
  {
    ResonanceTypeName(t) in s.myResonances
  }

  /** `Math.max(0, c - 1)`. */
  function Decrement(c: nat): nat
  {
    if c == 0 then 0 else c - 1
  }

  /** The name of `t` filtered out of the list and its counter lowered. */
  function Withdrawn(s: ButtonState, t: ResonanceType): ButtonState
  {
    WithCount(s.(myResonances := RemoveAll(s.myResonances, ResonanceTypeName(t))), t, Decrement(Count(s, t)))
  }

  /** The name of `t` appended to the list and its counter raised. */
  function Added(s: ButtonState, t: ResonanceType): ButtonState
  {
    WithCount(s.(myResonances := s.myResonances + [ResonanceTypeName(t)]), t, Count(s, t) + 1)
  }

  /** The optimistic update of a click on `t`. */
  function Optimistic(s: ButtonState, t: ResonanceType): ButtonState
  {
    if IsActive(s, t) then Withdrawn(s, t) else Added(s, t)
  }

  /** The undo after a failed request: the opposite of the optimistic step
      chosen by whether the button was active when clicked. */
  function Reverted(s: ButtonState, t: ResonanceType, wasActive: bool): ButtonState
  {
    if wasActive then Added(s, t) else Withdrawn(s, t)
  }

  /** The state right after a click: nothing while a request is pending,
      otherwise the optimistic update with the request marked pending. */
  function Clicked(s: ButtonState, t: ResonanceType): ButtonState
  {
    if s.loading then s else Optimistic(s, t).(loading := true)
  }

  /** The state once the request ends: reverted if it failed, and no longer
      pending. The server's `toggled` flag is not consulted. */
  function Settled(s: ButtonState, t: ResonanceType, wasActive: bool, failed: bool): ButtonState
  {
    (if failed then Reverted(s, t, wasActive) else s).(loading := false)
  }

  /** The component's state hooks. */
  class ResonanceButtonsView {
    var supportCount: nat
    var sharedCount: nat
    var myResonances: seq<string>
    var loading: bool

    function State(): ButtonState
      reads this
    {
      ButtonState(supportCount, sharedCount, myResonances, loading)
    }

    /** The state taken from the record's response, nothing pending. */
    constructor (initialSupport: nat, initialShared: nat, initialMine: seq<string>)
      ensures State() == ButtonState(initialSupport, initialShared, initialMine, false)
    {
      supportCount, sharedCount, myResonances, loading := initialSupport, initialShared, initialMine, false;
    }

    /** The synchronous part of `handleResonance`: `started` says whether a
        request goes out, `wasActive` is the highlight it saw. */
    method Click(t: ResonanceType) returns (started: bool, wasActive: bool)
      modifies this
      ensures started == !old(loading)
      ensures wasActive == IsActive(old(State()), t)
      ensures State() == Clicked(old(State()), t)
    {
      wasActive := ResonanceTypeName(t) in myResonances;
      if loading {
        return false, wasActive;
      }
      if wasActive {
        myResonances := RemoveAll(myResonances, ResonanceTypeName(t));
        if t == SUPPORT { supportCount := Decrement(supportCount); } else { sharedCount := Decrement(sharedCount); }
      } else {
        myResonances := myResonances + [ResonanceTypeName(t)];
        if t == SUPPORT { supportCount := supportCount + 1; } else { sharedCount := sharedCount + 1; }
      }
      loading := true;
      started := true;
    }

    /** The `catch` and `finally` of `handleResonance`. */
    method Settle(t: ResonanceType, wasActive: bool, failed: bool)
      modifies this
      ensures State() == Settled(old(State()), t, wasActive, failed)
    {
      if failed {
        if wasActive {
          myResonances := myResonances + [ResonanceTypeName(t)];
          if t == SUPPORT { supportCount := supportCount + 1; } else { sharedCount := sharedCount + 1; }
        } else {
          myResonances := RemoveAll(myResonances, ResonanceTypeName(t));
          if t == SUPPORT { supportCount := Decrement(supportCount); } else { sharedCount := Decrement(sharedCount); }
        }
      }
      loading := false;
    }
  }

  /** A click while a request is pending changes nothing. */
  lemma ClickWhileLoading(s: ButtonState, t: ResonanceType)
    requires s.loading
    ensures Clicked(s, t) == s
  {
  }

  /** A click flips the highlight of its own button, moves its own counter
      by one (not below zero) and leaves the other button alone. */
  lemma ClickFlips(s: ButtonState, t: ResonanceType)
    requires !s.loading
    ensures var c := Clicked(s, t);
      c.loading &&
      (IsActive(c, t) <==> !IsActive(s, t)) &&
      (IsActive(c, OtherType(t)) <==> IsActive(s, OtherType(t))) &&
      Count(c, t) == (if IsActive(s, t) then Decrement(Count(s, t)) else Count(s, t) + 1) &&
      Count(c, OtherType(t)) == Count(s, OtherType(t))
  {
    ResonanceTypeNameInjective(t, OtherType(t));
    RemoveAllKeepsOthers(s.myResonances, ResonanceTypeName(t), ResonanceTypeName(OtherType(t)));
  }

  /** A request that succeeds keeps the optimistic state. */
  lemma SettledSuccessKeeps(s: ButtonState, t: ResonanceType, wasActive: bool)
    ensures Settled(s, t, wasActive, false) == s.(loading := false)
  {
  }

  /** A click whose request fails restores the highlight of both buttons
      and the other counter; the clicked counter comes back too, except
      that withdrawing from a counter already at zero ends at one. */
  lemma FailedClickRestores(s: ButtonState, t: ResonanceType)
    requires !s.loading
    ensures var after := Settled(Clicked(s, t), t, IsActive(s, t), true);
      !after.loading &&
      (IsActive(after, t) <==> IsActive(s, t)) &&
      (IsActive(after, OtherType(t)) <==> IsActive(s, OtherType(t))) &&
      Count(after, OtherType(t)) == Count(s, OtherType(t)) &&
      Count(after, t) == (if IsActive(s, t) && Count(s, t) == 0 then 1 else Count(s, t))
  {
    var name, other := ResonanceTypeName(t), ResonanceTypeName(OtherType(t));
    ResonanceTypeNameInjective(t, OtherType(t));
    if IsActive(s, t) {
      var mid := Clicked(s, t);
      assert mid.myResonances == RemoveAll(s.myResonances, name);
      RemoveAllKeepsOthers(s.myResonances, name, other);
    } else {
      var mid := Clicked(s, t);
      assert mid.myResonances == s.myResonances + [name];
      RemoveAllKeepsOthers(s.myResonances + [name], name, other);
    }
  }

  /** After a failed click every other name in the list occurs as often as
      before. */
  lemma FailedClickKeepsOtherNames(s: ButtonState, t: ResonanceType, n: string)
    requires !s.loading && n != ResonanceTypeName(t)
    ensures multiset(Settled(Clicked(s, t), t, IsActive(s, t), true).myResonances)[n] == multiset(s.myResonances)[n]
  {
    var name := ResonanceTypeName(t);
    if IsActive(s, t) {
      assert Settled(Clicked(s, t), t, true, true).myResonances == RemoveAll(s.myResonances, name) + [name];
    } else {
      assert Settled(Clicked(s, t), t, false, true).myResonances == RemoveAll(s.myResonances + [name], name);
    }
  }

  /** When the button was not active, a failed click gives back exactly the
      state before the click. */
  lemma FailedClickOnInactiveIsUndone(s: ButtonState, t: ResonanceType)
    requires !s.loading && !IsActive(s, t)
    ensures Settled(Clicked(s, t), t, false, true) == s
  {
    var name := ResonanceTypeName(t);
    RemoveAllOfLast(s.myResonances, name);
    RemoveAllAbsent(s.myResonances, name);
  }

  /** The optimistic highlight predicts the server: if the buttons showed
      the server's state, the highlight after the click is on exactly when
      the server's toggle adds a resonance. */
  lemma OptimisticAgreesWithServer(s: ButtonState, zs: map<Id, Resonance>, next: Id, record: Id, viewer: Id,
                                   t: ResonanceType, now: Instant)
    requires !s.loading && s.myResonances == LearningRecordService.MyResonances(zs, record, viewer)
    ensures IsActive(Clicked(s, t), t) <==> ResonanceService.Toggled(zs, next, record, viewer, t, now).2.toggled
  {
    LearningRecordService.MyResonancesNames(zs, record, viewer, t);
  }

  /** If the counter showed the server's count, withdrawing the viewer's
      own resonance never hits the zero clamp: the counter drops by one,
      as the server's count does. */
  lemma WithdrawIsExact(s: ButtonState, zs: map<Id, Resonance>, record: Id, viewer: Id, t: ResonanceType)
    requires !s.loading && s.myResonances == LearningRecordService.MyResonances(zs, record, viewer)
    requires Count(s, t) == |Repositories.ResonancesOfType(zs, record, t)|
    requires IsActive(s, t)
    ensures Count(Clicked(s, t), t) + 1 == Count(s, t)
  {
    LearningRecordService.CountsCoverViewer(zs, record, viewer, t);
  }
}
