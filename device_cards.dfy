/** The device cards' change highlighting (handleDeviceUpdate and its timers
    in frontend/src/App.js). Each devices_update message is compared, card
    by card and position by position, with the previous message; a card
    whose tracked fields changed and that is not already highlighted starts
    a 1500 ms highlight. Timers are explicit: arming one records it as
    pending with its deadline, and its expiry and the clean-up on unmount are
    methods of their own. */
module DeviceCards {
  import opened Json

  /** How long a card stays highlighted, in milliseconds. */
  const HighlightMs: int := 1500

  /** The fields compared between two messages. */
  datatype Field = IsOn | Mode | FanSpeed | AirQuality | AirQualityValue | FilterLife

  const TrackedFields: seq<Field> := [IsOn, Mode, FanSpeed, AirQuality, AirQualityValue, FilterLife]

  function FieldOf(d: DeviceInfo, f: Field): Value
  {
    match f
    case IsOn => d.isOn
    case Mode => d.mode
    case FanSpeed => d.fanSpeed
    case AirQuality => d.airQuality
    case AirQualityValue => d.airQualityValue
    case FilterLife => d.filterLife
  }

  /** `fields.some(prop => oldDev[prop] !== newDev[prop])` (no NaN reaches
      these fields, so `!==` is inequality). */
  predicate AnyDiffers(fields: seq<Field>, oldDev: DeviceInfo, newDev: DeviceInfo)
  {
    if fields == [] then false
    else FieldOf(oldDev, fields[0]) != FieldOf(newDev, fields[0]) || AnyDiffers(fields[1..], oldDev, newDev)
  }

  predicate HasChanged(oldDev: DeviceInfo, newDev: DeviceInfo)
  {
    AnyDiffers(TrackedFields, oldDev, newDev)
  }

  /** The `some` scan finds a difference exactly when one of the listed
      fields differs. */
  lemma {:induction false} AnyDiffersIff(fields: seq<Field>, oldDev: DeviceInfo, newDev: DeviceInfo)
    ensures AnyDiffers(fields, oldDev, newDev) <==>
              exists k :: 0 <= k < |fields| && FieldOf(oldDev, fields[k]) != FieldOf(newDev, fields[k])
  {
    if fields != [] {
      AnyDiffersIff(fields[1..], oldDev, newDev);
      if AnyDiffers(fields[1..], oldDev, newDev) {
        var k :| 0 <= k < |fields[1..]| && FieldOf(oldDev, fields[1..][k]) != FieldOf(newDev, fields[1..][k]);
        assert fields[k + 1] == fields[1..][k];
      }
      if exists k :: 0 <= k < |fields| && FieldOf(oldDev, fields[k]) != FieldOf(newDev, fields[k]) {
        var k :| 0 <= k < |fields| && FieldOf(oldDev, fields[k]) != FieldOf(newDev, fields[k]);
        if k > 0 {
          assert fields[1..][k - 1] == fields[k];
        }
      }
    }
  }

  /** A card counts as changed exactly when one of the six tracked fields
      differs; its name and model never matter. */
  lemma HasChangedIff(oldDev: DeviceInfo, newDev: DeviceInfo)
    ensures HasChanged(oldDev, newDev) <==>
              || oldDev.isOn != newDev.isOn
              || oldDev.mode != newDev.mode
              || oldDev.fanSpeed != newDev.fanSpeed
              || oldDev.airQuality != newDev.airQuality
              || oldDev.airQualityValue != newDev.airQualityValue
              || oldDev.filterLife != newDev.filterLife
  {
    AnyDiffersIff(TrackedFields, oldDev, newDev);
    if HasChanged(oldDev, newDev) {
      var k :| 0 <= k < |TrackedFields| && FieldOf(oldDev, TrackedFields[k]) != FieldOf(newDev, TrackedFields[k]);
    } else {
      assert forall k :: 0 <= k < |TrackedFields| ==> FieldOf(oldDev, TrackedFields[k]) == FieldOf(newDev, TrackedFields[k]);
      assert FieldOf(oldDev, TrackedFields[0]) == FieldOf(newDev, TrackedFields[0]);
      assert FieldOf(oldDev, TrackedFields[1]) == FieldOf(newDev, TrackedFields[1]);
      assert FieldOf(oldDev, TrackedFields[2]) == FieldOf(newDev, TrackedFields[2]);
      assert FieldOf(oldDev, TrackedFields[3]) == FieldOf(newDev, TrackedFields[3]);
      assert FieldOf(oldDev, TrackedFields[4]) == FieldOf(newDev, TrackedFields[4]);
      assert FieldOf(oldDev, TrackedFields[5]) == FieldOf(newDev, TrackedFields[5]);
    }
  }

  /** The cards a message flags: positions present in both the previous and
      the incoming message, with a tracked change, and not already animating. */
  function Flagged(previous: seq<DeviceInfo>, incoming: seq<DeviceInfo>, animating: set<nat>): (flagged: set<nat>)
    ensures forall i :: i in flagged ==> i < |previous| && i < |incoming| && i !in animating
    ensures forall i :: i in flagged ==> HasChanged(previous[i], incoming[i])
  {
    set i | 0 <= i < |incoming| && i < |previous| && HasChanged(previous[i], incoming[i]) && i !in animating
  }

  /** The flagged cards among the first `n` positions. */
  function FlaggedBelow(previous: seq<DeviceInfo>, incoming: seq<DeviceInfo>, animating: set<nat>, n: nat): set<nat>
  {
    set i | 0 <= i < n && i < |incoming| && i < |previous| && HasChanged(previous[i], incoming[i]) && i !in animating
  }

  lemma FlaggedBelowStep(previous: seq<DeviceInfo>, incoming: seq<DeviceInfo>, animating: set<nat>, n: nat)
    ensures FlaggedBelow(previous, incoming, animating, n + 1) ==
              FlaggedBelow(previous, incoming, animating, n) +
              (if n < |incoming| && n < |previous| && HasChanged(previous[n], incoming[n]) && n !in animating
               then {n} else {})
  {
  }

  lemma FlaggedBelowAll(previous: seq<DeviceInfo>, incoming: seq<DeviceInfo>, animating: set<nat>)
    ensures FlaggedBelow(previous, incoming, animating, |incoming|) == Flagged(previous, incoming, animating)
  {
  }

  /** A message whose tracked fields equal the previous ones position by
      position flags nothing, whatever else differs and whatever its length. */
  lemma UnchangedFieldsFlagNothing(previous: seq<DeviceInfo>, incoming: seq<DeviceInfo>, animating: set<nat>)
    requires forall i :: 0 <= i < |previous| && i < |incoming| ==>
               forall f :: FieldOf(previous[i], f) == FieldOf(incoming[i], f)
    ensures Flagged(previous, incoming, animating) == {}
  {
    forall i | 0 <= i < |previous| && i < |incoming|
      ensures !HasChanged(previous[i], incoming[i])
    {
      AnyDiffersIff(TrackedFields, previous[i], incoming[i]);
    }
  }

  /** A pending timer: the card it un-highlights and when it fires. */
  datatype Timeout = Timeout(index: nat, deadline: int)

  /** `array[i] = id` on a JavaScript array: writing past the end leaves
      holes (0 here) in between. */
  function SetSlot(slots: seq<nat>, i: nat, id: nat): (r: seq<nat>)
    ensures |r| == if i < |slots| then |slots| else i + 1
    ensures r[i] == id
    ensures forall j :: 0 <= j < |r| && j != i ==> r[j] == if j < |slots| then slots[j] else 0
  {
    if i < |slots| then slots[i := id]
    else slots + seq(i - |slots|, _ => 0) + [id]
  }

  /** The cards some pending timer will un-highlight. */
  ghost function TimedCards(pending: map<nat, Timeout>): set<nat>
  {
    set t | t in pending :: pending[t].index
  }

  /** The timer table is well formed: ids are positive and below the next
      id, no id sits in two slots, and every pending timer is the one in its
      card's slot. */
  ghost predicate TimersConsistent(slots: seq<nat>, pending: map<nat, Timeout>, nextTimer: nat)
  {
    && 1 <= nextTimer
    && (forall i :: 0 <= i < |slots| ==> slots[i] < nextTimer)
    && (forall i, j :: 0 <= i < j < |slots| && slots[i] != 0 ==> slots[i] != slots[j])
    && (forall t :: t in pending ==>
          1 <= t < nextTimer && pending[t].index < |slots| && slots[pending[t].index] == t)
  }

  /** A card has at most one pending timer: the one in its slot. */
  lemma OneTimerPerCard(slots: seq<nat>, pending: map<nat, Timeout>, nextTimer: nat, t1: nat, t2: nat)
    requires TimersConsistent(slots, pending, nextTimer)
    requires t1 in pending && t2 in pending && pending[t1].index == pending[t2].index
    ensures t1 == t2
  {
  }

  /** clearTimeout on the id in a card's slot. */
  function ClearSlot(slots: seq<nat>, pending: map<nat, Timeout>, i: nat): map<nat, Timeout>
  {
    if i < |slots| && slots[i] != 0 then pending - {slots[i]} else pending
  }

  /** For a card with nothing pending, clearing its slot clears a timer that
      has already fired: nothing changes. */
  lemma ClearIdleSlot(slots: seq<nat>, pending: map<nat, Timeout>, nextTimer: nat, i: nat)
    requires TimersConsistent(slots, pending, nextTimer) && i !in TimedCards(pending)
    ensures ClearSlot(slots, pending, i) == pending
  {
    if i < |slots| && slots[i] != 0 {
      forall t | t in pending ensures t != slots[i] {
        assert pending[t].index in TimedCards(pending);
      }
    }
  }

  /** Arming card `i`'s highlight: the id in its slot is cleared, and a
      fresh id due at `deadline` takes the slot. */
  function Arm(slots: seq<nat>, pending: map<nat, Timeout>, nextTimer: nat, i: nat, deadline: int)
    : (armed: (seq<nat>, map<nat, Timeout>, nat))
    ensures i < |armed.0| && armed.0[i] == nextTimer && armed.2 == nextTimer + 1
    ensures nextTimer in armed.1 && armed.1[nextTimer] == Timeout(i, deadline)
    ensures i < |slots| && slots[i] != 0 && slots[i] != nextTimer ==> slots[i] !in armed.1
  {
    (SetSlot(slots, i, nextTimer), ClearSlot(slots, pending, i)[nextTimer := Timeout(i, deadline)], nextTimer + 1)
  }

  /** Arming touches no other timer: apart from the fresh id, the armed
      table holds exactly the pending timers other than the one cleared
      from the card's slot, each unchanged. */
  lemma ArmKeepsOthers(slots: seq<nat>, pending: map<nat, Timeout>, nextTimer: nat, i: nat, deadline: int)
    ensures var armed := Arm(slots, pending, nextTimer, i, deadline).1;
            forall t :: t != nextTimer ==>
              (t in armed <==> t in pending && !(i < |slots| && slots[i] != 0 && t == slots[i]))
              && (t in armed ==> armed[t] == pending[t])
  {
  }

  /** Arming a timer for an idle card keeps the table well formed and adds
      exactly that card to the timed ones: every pending timer stays, and
      the one new timer is the card's, due at `deadline`. */
  lemma ArmTimer(slots: seq<nat>, pending: map<nat, Timeout>, nextTimer: nat, i: nat, deadline: int)
    requires TimersConsistent(slots, pending, nextTimer) && i !in TimedCards(pending)
    ensures var (slots', pending', nextTimer') := Arm(slots, pending, nextTimer, i, deadline);
            && nextTimer !in pending
            && pending' == pending[nextTimer := Timeout(i, deadline)]
            && TimersConsistent(slots', pending', nextTimer')
            && TimedCards(pending') == TimedCards(pending) + {i}
  {
    ClearIdleSlot(slots, pending, nextTimer, i);
    var slots' := SetSlot(slots, i, nextTimer);
    var pending' := pending[nextTimer := Timeout(i, deadline)];
    forall t | t in pending ensures pending[t].index != i && slots'[pending[t].index] == t {
      assert pending[t].index in TimedCards(pending);
    }
    assert pending'[nextTimer].index in TimedCards(pending');
    assert TimedCards(pending') == TimedCards(pending) + {i} by {
      forall c | c in TimedCards(pending') ensures c in TimedCards(pending) + {i} {
        var t :| t in pending' && pending'[t].index == c;
      }
      forall c | c in TimedCards(pending) ensures c in TimedCards(pending') {
        var t :| t in pending && pending[t].index == c;
        assert pending'[t] == pending[t];
      }
    }
  }

  /** A timer's expiry keeps the table well formed and frees only its card. */
  lemma ExpireTimer(slots: seq<nat>, pending: map<nat, Timeout>, nextTimer: nat, t: nat)
    requires TimersConsistent(slots, pending, nextTimer) && t in pending
    ensures TimersConsistent(slots, pending - {t}, nextTimer)
    ensures TimedCards(pending - {t}) == TimedCards(pending) - {pending[t].index}
  {
    var rest := pending - {t};
    forall c | c in TimedCards(pending) - {pending[t].index} ensures c in TimedCards(rest) {
      var t' :| t' in pending && pending[t'].index == c;
      assert rest[t'] == pending[t'];
    }
    forall c | c in TimedCards(rest) ensures c != pending[t].index {
      var t' :| t' in rest && rest[t'].index == c;
      if c == pending[t].index { OneTimerPerCard(slots, pending, nextTimer, t', t); }
    }
  }

  /** The timers of the cards from position `k` on. */
  ghost function TimersFrom(pending: map<nat, Timeout>, k: nat): map<nat, Timeout>
  {
    map t | t in pending && pending[t].index >= k :: pending[t]
  }

  /** Clearing slot `k` removes exactly the timer of card `k`. */
  lemma ClearNextSlot(slots: seq<nat>, pending: map<nat, Timeout>, nextTimer: nat, k: nat)
    requires TimersConsistent(slots, pending, nextTimer) && k < |slots|
    ensures ClearSlot(slots, TimersFrom(pending, k), k) == TimersFrom(pending, k + 1)
  {
    var before := TimersFrom(pending, k);
    var after := TimersFrom(pending, k + 1);
    var cleared := ClearSlot(slots, before, k);
    forall t | t in before
      ensures t in after <==> t in cleared
    {
      if pending[t].index == k {
        assert t == slots[k];
      } else {
        assert slots[pending[t].index] == t;
      }
    }
    assert cleared.Keys == after.Keys;
  }

  /** `pending` keeps every timer of `pending0`, and each timer it adds
      belongs to a card of `flagged` and is due at `deadline`. */
  ghost predicate TimersExtended(pending0: map<nat, Timeout>, pending: map<nat, Timeout>, flagged: set<nat>, deadline: int)
  {
    && (forall t :: t in pending0 ==> t in pending && pending[t] == pending0[t])
    && (forall t :: t in pending && t !in pending0 ==> pending[t].index in flagged && pending[t].deadline == deadline)
  }

  /** What the `forEach` has established after the first `idx` cards, from
      a start with timers `pending0`: the cards flagged so far, each armed
      with a timer due at `now + 1500`, and every earlier timer untouched. */
  ghost predicate ScanInvariant(previous: seq<DeviceInfo>, incoming: seq<DeviceInfo>, animating: set<nat>,
                                pending0: map<nat, Timeout>, now: int, idx: nat,
                                changed: set<nat>, animating': set<nat>,
                                slots: seq<nat>, pending: map<nat, Timeout>, nextTimer: nat)
  {
    && changed == FlaggedBelow(previous, incoming, animating, idx)
    && animating' == animating + changed
    && TimersConsistent(slots, pending, nextTimer) && animating' == TimedCards(pending)
    && TimersExtended(pending0, pending, changed, now + HighlightMs)
  }

  /** Card `idx` is flagged by the `forEach`. */
  predicate Flags(previous: seq<DeviceInfo>, incoming: seq<DeviceInfo>, animating': set<nat>, idx: nat)
  {
    idx < |incoming| && idx < |previous| && HasChanged(previous[idx], incoming[idx]) && idx !in animating'
  }

  /** A card the `forEach` passes over changes nothing. */
  lemma ScanSkip(previous: seq<DeviceInfo>, incoming: seq<DeviceInfo>, animating: set<nat>,
                 pending0: map<nat, Timeout>, now: int, idx: nat,
                 changed: set<nat>, animating': set<nat>,
                 slots: seq<nat>, pending: map<nat, Timeout>, nextTimer: nat)
    requires ScanInvariant(previous, incoming, animating, pending0, now, idx, changed, animating', slots, pending, nextTimer)
    requires !Flags(previous, incoming, animating', idx)
    ensures ScanInvariant(previous, incoming, animating, pending0, now, idx + 1, changed, animating', slots, pending, nextTimer)
  {
    FlaggedBelowStep(previous, incoming, animating, idx);
  }

  /** A flagged card joins the flagged and animating sets and is armed. */
  lemma ScanArm(previous: seq<DeviceInfo>, incoming: seq<DeviceInfo>, animating: set<nat>,
                pending0: map<nat, Timeout>, now: int, idx: nat,
                changed: set<nat>, animating': set<nat>,
                slots: seq<nat>, pending: map<nat, Timeout>, nextTimer: nat)
    requires ScanInvariant(previous, incoming, animating, pending0, now, idx, changed, animating', slots, pending, nextTimer)
    requires Flags(previous, incoming, animating', idx)
    ensures var armed := Arm(slots, pending, nextTimer, idx, now + HighlightMs);
            ScanInvariant(previous, incoming, animating, pending0, now, idx + 1,
                          changed + {idx}, animating' + {idx}, armed.0, armed.1, armed.2)
  {
    FlaggedBelowStep(previous, incoming, animating, idx);
    ArmTimer(slots, pending, nextTimer, idx, now + HighlightMs);
  }

  /** One turn of the `forEach`: card `idx` is compared with its previous
      self and, when flagged, joins both sets and is armed. */
  method ScanStep(previous: seq<DeviceInfo>, incoming: seq<DeviceInfo>, animating: set<nat>,
                  pending0: map<nat, Timeout>, now: int, idx: nat,
                  changed: set<nat>, current: set<nat>,
                  slots: seq<nat>, pending: map<nat, Timeout>, nextTimer: nat)
    returns (changed': set<nat>, current': set<nat>, slots': seq<nat>, pending': map<nat, Timeout>, nextTimer': nat)
    requires idx < |incoming|
    requires ScanInvariant(previous, incoming, animating, pending0, now, idx, changed, current, slots, pending, nextTimer)
    ensures ScanInvariant(previous, incoming, animating, pending0, now, idx + 1, changed', current', slots', pending', nextTimer')
  {
    changed', current', slots', pending', nextTimer' := changed, current, slots, pending, nextTimer;
    if idx < |previous| {
      var hasChanged := HasChanged(previous[idx], incoming[idx]);
      if hasChanged && idx !in current {
        ScanArm(previous, incoming, animating, pending0, now, idx, changed, current, slots, pending, nextTimer);
        changed' := changed + {idx};
        current' := current + {idx};
        var armed := Arm(slots, pending, nextTimer, idx, now + HighlightMs);
        slots', pending', nextTimer' := armed.0, armed.1, armed.2;
      } else {
        ScanSkip(previous, incoming, animating, pending0, now, idx, changed, current, slots, pending, nextTimer);
      }
    } else {
      ScanSkip(previous, incoming, animating, pending0, now, idx, changed, current, slots, pending, nextTimer);
    }
  }

  /** The `forEach` of handleDeviceUpdate over the incoming message: each
      flagged card joins the animating set, its slot's old timer is cleared
      and a timer due at `now + 1500` is armed in its place. */
  method ScanCards(previous: seq<DeviceInfo>, incoming: seq<DeviceInfo>, animating: set<nat>,
                   slots: seq<nat>, pending: map<nat, Timeout>, nextTimer: nat, now: int)
    returns (changed: set<nat>, animating': set<nat>, slots': seq<nat>, pending': map<nat, Timeout>, nextTimer': nat)
    requires TimersConsistent(slots, pending, nextTimer) && animating == TimedCards(pending)
    ensures changed == Flagged(previous, incoming, animating)
    ensures animating' == animating + changed
    ensures TimersConsistent(slots', pending', nextTimer') && animating' == TimedCards(pending')
    ensures TimersExtended(pending, pending', changed, now + HighlightMs)
  {
    animating', slots', pending', nextTimer' := animating, slots, pending, nextTimer;
    changed := {};
    var idx := 0;
    while idx < |incoming|
      invariant 0 <= idx <= |incoming|
      invariant ScanInvariant(previous, incoming, animating, pending, now, idx,
                              changed, animating', slots', pending', nextTimer')
    {
      changed, animating', slots', pending', nextTimer' :=
        ScanStep(previous, incoming, animating, pending, now, idx, changed, animating', slots', pending', nextTimer');
      idx := idx + 1;
    }
    FlaggedBelowAll(previous, incoming, animating);
  }

  /** While mounted, a card is animating exactly when it has a pending
      timer, and is drawn highlighted exactly when it is animating; after
      unmounting no timer is left. */
  ghost predicate Consistent(slots: seq<nat>, pending: map<nat, Timeout>, nextTimer: nat,
                             animating: set<nat>, updating: set<nat>, mounted: bool)
  {
    && TimersConsistent(slots, pending, nextTimer)
    && (mounted ==> animating == TimedCards(pending) && updating == animating)
    && (!mounted ==> pending == map[])
  }

  class CardHighlights {
    /** previousDevicesRef: the message the next one is compared with. */
    var previous: seq<DeviceInfo>
    /** The devices state the cards are drawn from. */
    var devices: seq<DeviceInfo>
    /** animatingDevicesRef: cards with a highlight in flight. */
    var animating: set<nat>
    /** The updatingDevices state: cards drawn highlighted. State updates
        are taken to apply at once. */
    var updating: set<nat>
    /** updateTimeoutsRef: the last timer id armed per card, 0 for a hole. */
    var slots: seq<nat>
    /** Timers armed and neither fired nor cleared, by id. */
    var pending: map<nat, Timeout>
    /** The id the next setTimeout returns (ids are positive). */
    var nextTimer: nat
    var mounted: bool

    ghost predicate Valid()
      reads this
    {
      Consistent(slots, pending, nextTimer, animating, updating, mounted)
    }

    constructor ()
      ensures Valid() && mounted
      ensures previous == [] && devices == [] && animating == {} && updating == {}
      ensures slots == [] && pending == map[]
    {
      previous, devices := [], [];
      animating, updating := {}, {};
      slots, pending := [], map[];
      nextTimer := 1;
      mounted := true;
    }

    /** handleDeviceUpdate, at time `now`. The flagged cards (and only they)
        join `animating` and `updating` and get a fresh timer due 1500 ms
        from now; cards already animating keep their timer and deadline; the
        incoming message replaces the retained one whole, whatever its
        length. */
    method HandleDeviceUpdate(incoming: seq<DeviceInfo>, now: int)
      requires Valid() && mounted
      modifies this
      ensures Valid() && mounted
      ensures var flagged := Flagged(old(previous), incoming, old(animating));
              && animating == old(animating) + flagged
              && updating == old(updating) + flagged
              && TimersExtended(old(pending), pending, flagged, now + HighlightMs)
      ensures previous == incoming && devices == incoming
    {
      var changed, anim, slots', pending', next :=
        ScanCards(previous, incoming, animating, slots, pending, nextTimer, now);
      var updating' := updating;
      if changed != {} {
        updating' := updating + changed;
      }
      assert updating' == updating + changed;
      previous, devices := incoming, incoming;
      Commit(slots', pending', next, anim, updating');
    }

    /** Stores a consistent timer table and highlight sets at once. */
    method Commit(slots': seq<nat>, pending': map<nat, Timeout>, nextTimer': nat, animating': set<nat>, updating': set<nat>)
      requires mounted && Consistent(slots', pending', nextTimer', animating', updating', true)
      modifies this`slots, this`pending, this`nextTimer, this`animating, this`updating
      ensures Valid() && mounted
      ensures slots == slots' && pending == pending' && nextTimer == nextTimer'
      ensures animating == animating' && updating == updating'
    {
      slots, pending, nextTimer, animating, updating := slots', pending', nextTimer', animating', updating';
    }

    /** The expiry of timer `t` at time `now`, once it is due: its card
        leaves `animating` and `updating`. */
    method FireTimer(t: nat, now: int)
      requires Valid() && t in pending && pending[t].deadline <= now
      modifies this`pending, this`animating, this`updating
      ensures Valid()
      ensures pending == old(pending) - {t}
      ensures animating == old(animating) - {old(pending)[t].index}
      ensures updating == old(updating) - {old(pending)[t].index}
    {
      var idx := pending[t].index;
      ExpireTimer(slots, pending, nextTimer, t);
      pending := pending - {t};
      animating := animating - {idx};
      updating := updating - {idx};
    }

    /** The clean-up on unmount: every timer id in the slots is cleared,
        which leaves no timer pending. */
    method Unmount()
      requires Valid()
      modifies this`pending, this`mounted
      ensures Valid() && !mounted
      ensures pending == map[]
    {
      var table := pending;
      var pending' := pending;
      var k := 0;
      assert pending' == TimersFrom(table, 0);
      while k < |slots|
        invariant 0 <= k <= |slots|
        invariant pending' == TimersFrom(table, k)
      {
        ClearNextSlot(slots, table, nextTimer, k);
        if slots[k] != 0 {
          pending' := pending' - {slots[k]};
        }
        k := k + 1;
      }
      assert pending' == map[];
      pending := pending';
      mounted := false;
    }
  }

  /** Switching a purifier on flags its card; any further change while the
      card is animating flags nothing. */
  lemma {:induction false} PowerToggleFlags(off: DeviceInfo, later: DeviceInfo)
    requires off.isOn == Bool(false)
    ensures Flagged([off], [off.(isOn := Bool(true))], {}) == {0}
    ensures Flagged([off.(isOn := Bool(true))], [later], {0}) == {}
  {
    HasChangedIff(off, off.(isOn := Bool(true)));
    assert 0 in Flagged([off], [off.(isOn := Bool(true))], {});
  }
}
