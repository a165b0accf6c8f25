/** The event loop's timer half: slot processing, catch-up, look-ahead and timer IDs. */
module TimerManager {
  import opened Messages
  import opened Wheel

  const MAX_TIMERS: nat := 128

  class SocketManager {
    var pos: nat                      // current tick; the C++ counter is 32 bits wide
    var deviation: nat                // ticks to catch up on
    const slots: array<seq<Box>>
    var table: seq<Timer?>            // the timer owning each ID, null once deleted
    var free: seq<nat>                // a stack, top at the end
    var fireAll: seq<Box>
    var fireNext: nat                 // the iterator: fireAll[fireNext..] is still to be visited
    var timers: set<Timer>            // every timer ever created, and those deleted since:
    var deleted: set<Timer>           // the pointers application code can hold

    ghost var entries: Entries
    ghost var filings: nat            // boxes filed so far; the next filing's stamp
    ghost var fires: seq<Fire>
    ghost var deaths: map<Timer, nat>

    // ---------------------------------------------------------------- invariant

    ghost function Sight(lo: nat, hi: nat): View
      requires fireNext <= |fireAll|
      reads this, slots
    {
      View(lo, hi, slots[..], fireAll[fireNext..], free, |table|, entries, filings)
    }

    /** The state when every box due before `lo` has been dealt with or gathered. */
    ghost predicate Ok(lo: nat, hi: nat)
      reads this, slots, timers
    {
      && slots.Length == SLOTS
      && fireNext <= |fireAll|
      && |table| >= 1
      && WheelOk(Sight(lo, hi))
      && History(fires, entries, pos)
      && TimersOk()
    }

    ghost predicate TimersOk()
      reads this, timers
    {
      && Linked(table, entries, timers, deleted)
      && Owned(table, entries, timers, deleted)
      && Spent(fires, timers, deleted)
      && Silenced(fires, deleted, deaths)
    }

    /** Every box sits in the slot of its due tick, within one turn from the current tick. */
    ghost predicate Valid()
      reads this, slots, timers
    {
      Ok(pos, pos + LAP)
    }

    /** What holds at the head of the event loop: nothing gathered, nothing in the hand. */
    ghost predicate Idle()
      reads this, slots, timers
    {
      Valid() && HandsFree(entries) && fireAll == [] && fireNext == 0
    }

    /** What no operation takes back: time moves on, timers stay known, deletions stay, and the
        history only grows, by new expiries of timers that were not deleted before. */
    twostate predicate Onward()
      reads this
    {
      && old(pos) <= pos
      && old(timers) <= timers && fresh(timers - old(timers))
      && old(deleted) <= deleted
      && (forall t :: t in old(deaths) ==> t in deaths && deaths[t] == old(deaths)[t])
      && Extends(old(fires), fires, old(deleted), old(pos))
    }

    constructor ()
      ensures Idle() && fires == [] && entries == map[] && timers == {}
      ensures fresh(slots)
    {
      slots := new seq<Box>[SLOTS](_ => []);
      pos, deviation := 1, 0;
      table := seq(MAX_TIMERS, _ => null);
      free := seq(MAX_TIMERS - 1, i => i + 1);
      fireAll, fireNext, entries, timers, deleted, fires, deaths := [], 0, map[], {}, {}, [], map[];
      filings := 0;
      new;
      assert forall s :: 0 <= s < SLOTS ==> slots[..][s] == [];
      forall id: nat
        ensures id in free <==> 1 <= id < MAX_TIMERS
      {
        if 1 <= id < MAX_TIMERS {
          assert free[id - 1] == id;
        }
      }
    }

    // ----------------------------------------------------------------- timer IDs

    function IsTimerLive(id: nat): bool
      requires id < |table|
      reads this
    {
      table[id] != null
    }

    /** Pops a free ID, growing the table by one step when none is left. */
    method GetTimerIDFromStack() returns (id: nat)
      requires FreeOk(free, |table|, entries.Keys) && |table| >= 1
      modifies this`table, this`free
      ensures 1 <= id < |table| && id !in entries
      ensures FreeOk(free, |table|, entries.Keys + {id})
      ensures old(table) <= table
      ensures old(free) != [] ==> table == old(table) && old(free) == free + [id]
      ensures old(free) == [] ==> |table| == |old(table)| + TIMERS_STEP && id == |table| - 1
                                  && free == seq(TIMERS_STEP - 1, k => |old(table)| + k)
    {
      if free == [] {
        var max := |table|;
        var i := max;
        while i < max + TIMERS_STEP
          invariant max <= i <= max + TIMERS_STEP
          invariant |table| == i && old(table) <= table
          invariant |free| == i - max && forall k :: 0 <= k < |free| ==> free[k] == max + k
        {
          table := table + [null];
          free := free + [i];
          i := i + 1;
        }
        FreeAfterGrow(max, entries.Keys, free);
      }
      FreeAfterPop(free, |table|, entries.Keys);
      id := free[|free| - 1];
      free := free[..|free| - 1];
    }

    /** Puts a new timer's box into the slot `interval` ticks ahead, a lap at most. */
    method AddToTimerList(t: Timer)
      requires slots.Length == SLOTS && t.nextFire == 0
      modifies slots, t`nextFire
      ensures slots[..] == PutIn(old(slots[..]), (pos + Hop(t.interval)) % SLOTS, Box(t.id, t))
      ensures slots[pos % SLOTS] == old(slots[pos % SLOTS]) <==> t.interval >= 1
      ensures t.nextFire == t.interval - Hop(t.interval)
    {
      var slot;
      if t.interval < SLOTS {
        slot := (pos + t.interval) % SLOTS;
      } else {
        slot := (pos + SLOTS - 1) % SLOTS;
        t.SetNextFire(t.interval - SLOTS + 1);
      }
      AheadIsElsewhere(pos, t.interval);
      slots[slot] := slots[slot] + [Box(t.id, t)];
    }

    /** Files a visited box for the ticks its timer still has to travel. */
    method AddToCorrectSlot(b: Box)
      requires slots.Length == SLOTS && b.timer.nextFire >= 1
      modifies slots, b.timer`nextFire
      ensures var n := old(b.timer.nextFire);
              && slots[..] == PutIn(old(slots[..]), (pos + Hop(n)) % SLOTS, b)
              && b.timer.nextFire == n - Hop(n)
      ensures slots[pos % SLOTS] == old(slots[pos % SLOTS])
    {
      var n := b.timer.nextFire;
      var slot;
      if n < SLOTS {
        slot := (pos + n) % SLOTS;
        b.timer.SetNextFire(0);
      } else {
        slot := (pos + SLOTS - 1) % SLOTS;
        b.timer.SetNextFire(n - SLOTS + 1);
      }
      AheadIsElsewhere(pos, n);
      slots[slot] := slots[slot] + [b];
    }

    /** Enters a new timer into the table and files its box. */
    method Register(id: nat, t: Timer)
      requires TimersOk() && History(fires, entries, pos) && slots.Length == SLOTS
      requires t !in timers && t !in deleted && t.interval >= 1 && t.id == id && t.nextFire == 0 && t.born == pos
      requires 1 <= id < |table| && id !in entries
      modifies this`table, this`entries, this`filings, this`timers, slots, t`nextFire
      ensures TimersOk() && History(fires, entries, pos)
      ensures |table| == |old(table)| && timers == old(timers) + {t}
      ensures entries == old(entries)[id := NewPeriod(t, pos, old(filings))] && filings == old(filings) + 1
      ensures slots[..] == PutIn(old(slots[..]), (pos + Hop(t.interval)) % SLOTS, Box(id, t))
      ensures slots[pos % SLOTS] == old(slots[pos % SLOTS])
    {
      hide History, Linked, Owned, Spent, Silenced;
      ghost var e := NewPeriod(t, pos, filings);
      AddToTimerList(t);
      LinksEnter(table, entries, timers, deleted, fires, id, t, e);
      HistoryPut(fires, entries, pos, id, e);
      table := table[id := t];
      timers := timers + {t};
      entries := entries[id := e];
      filings := filings + 1;
    }

    method CreateTimer(interval: nat, repeated: bool) returns (t: Timer)
      requires Valid() && interval >= 1
      modifies this`table, this`free, this`entries, this`filings, this`timers, slots
      ensures Valid() && fresh(t) && t.interval == interval && t.repeated == repeated
      ensures timers == old(timers) + {t}
      ensures t.id !in old(entries) && entries == old(entries)[t.id := NewPeriod(t, pos, old(filings))]
      ensures filings == old(filings) + 1
      ensures slots[..] == PutIn(old(slots[..]), (pos + Hop(interval)) % SLOTS, Box(t.id, t))
      ensures slots[pos % SLOTS] == old(slots[pos % SLOTS])
    {
      hide WheelOk, FreeOk, Linked, Owned, Spent, Silenced, History, NewPeriod, PutIn, Hop;
      ghost var was := Sight(pos, pos + LAP);
      WheelFree(was);
      var id := GetTimerIDFromStack();
      LinksGrow(old(table), table, entries, timers, deleted);
      t := new Timer(interval, repeated, id, pos);
      NewPeriodTracks(t, pos, filings);
      AfterPut(was, free, |table|, id, NewPeriod(t, pos, filings));
      Register(id, t);
    }

    /** The destructor: the table forgets the timer; its box is reclaimed when next visited.
        A fired one-shot timer carries ID 0 by then, so no other timer is affected. */
    method DeleteTimer(t: Timer)
      requires Valid() && t in timers && t !in deleted
      modifies this`table, this`deleted, this`deaths
      ensures Valid() && deleted == old(deleted) + {t} && deaths == old(deaths)[t := |fires|]
      ensures Onward() && |table| == |old(table)|
      ensures forall id :: 1 <= id < |table| ==> table[id] == if id == t.id then null else old(table)[id]
      ensures t.id != 0 ==> old(table)[t.id] == t
    {
      hide WheelOk, Linked, Owned, Spent, History;
      LinksDeleted(table, entries, timers, deleted, fires, t);
      SilencedNow(fires, deleted, deaths, t);
      table := table[t.id := null];
      deleted := deleted + {t};
      deaths := deaths[t := |fires|];
    }

    // ------------------------------------------------------------------ callbacks

    /** One thing a callback may do: create a timer, or delete one. */
    method CallbackStep()
      requires Valid()
      modifies this`table, this`free, this`entries, this`filings, this`timers, this`deleted, this`deaths, slots
      ensures Valid()
      ensures Onward()
      ensures slots[pos % SLOTS] == old(slots[pos % SLOTS])
      ensures Undisturbed(old(entries), entries) && Newborn(old(entries), entries, pos)
    {
      hide WheelOk, Linked, Owned, Spent, Silenced, History;
      var interval: nat, repeated: bool := *, *;
      if interval >= 1 {
        var created := CreateTimer(interval, repeated);
      } else if timers - deleted != {} {
        var doomed := Pick(timers - deleted);
        DeleteTimer(doomed);
      }
    }

    /** An application callback: any number of timers created and deleted, in any order. */
    method OnTimer(t: Timer)
      requires Valid()
      modifies this`table, this`free, this`entries, this`filings, this`timers, this`deleted, this`deaths, slots
      ensures Valid()
      ensures Onward()
      ensures slots[pos % SLOTS] == old(slots[pos % SLOTS])
      ensures Undisturbed(old(entries), entries)
    {
      hide WheelOk, Linked, Owned, Spent, Silenced, History;
      var steps: nat := *;
      while steps > 0
        invariant Valid()
        invariant Onward()
        invariant slots[pos % SLOTS] == old(slots[pos % SLOTS])
        invariant Undisturbed(old(entries), entries)
      {
        CallbackStep();
        steps := steps - 1;
      }
    }

    /** Socket callbacks during a poll: any number of timers created and deleted, in any order. */
    method ReadSockets()
      requires Idle()
      modifies this`table, this`free, this`entries, this`filings, this`timers, this`deleted, this`deaths, slots
      ensures Idle() && Onward()
      ensures Undisturbed(old(entries), entries) && Newborn(old(entries), entries, pos)
    {
      hide WheelOk, Linked, Owned, Spent, Silenced, History, NewPeriod;
      var steps: nat := *;
      while steps > 0
        invariant Idle() && Onward()
        invariant Undisturbed(old(entries), entries) && Newborn(old(entries), entries, pos)
      {
        CallbackStep();
        steps := steps - 1;
      }
    }

    // ------------------------------------------------------------ visiting a box

    /** The box being visited: off the wheel, its history intact, overdue by a lap at most. */
    ghost predicate InHand(b: Box)
      requires Valid()
      reads this, slots, timers
    {
      IsIn(b, entries, Hand) && OnlyHand(entries, b.id)
    }

    /** The box of a dead timer is dropped and its ID becomes free. */
    method Reclaim(b: Box, ghost lo: nat, ghost hi: nat)
      requires Ok(lo, hi) && IsIn(b, entries, Hand) && OnlyHand(entries, b.id) && table[b.id] == null
      modifies this`free, this`entries
      ensures Ok(lo, hi) && HandsFree(entries)
      ensures free == old(free) + [b.id] && entries == old(entries) - {b.id}
    {
      hide WheelOk, History, Silenced;
      HistoryDrop(fires, entries, pos, b.id);
      AfterReclaim(Sight(lo, hi), b.id);
      free := free + [b.id];
      entries := entries - {b.id};
    }

    /** A fired one-shot timer gives its ID back; the timer object lives on with ID 0. */
    method Retire(b: Box)
      requires Valid() && InHand(b) && table[b.id] != null
      requires !b.timer.repeated && HasFired(fires, b.timer)
      modifies this`free, this`entries, b.timer`id
      ensures Valid() && HandsFree(entries) && b.timer.id == 0
      ensures free == old(free) + [b.id] && entries == old(entries) - {b.id}
    {
      hide WheelOk, History, Silenced;
      HistoryDrop(fires, entries, pos, b.id);
      AfterReclaim(Sight(pos, pos + LAP), b.id);
      b.timer.ResetTimerId();
      free := free + [b.id];
      entries := entries - {b.id};
    }

    /** Puts the box in the hand into its slot; the timer's distance shrinks by one hop. */
    method FileInSlot(b: Box)
      requires TimersOk() && slots.Length == SLOTS && b.timer.nextFire >= 1
      requires IsIn(b, entries, Hand) && b.id < |table| && table[b.id] != null
      modifies slots, b.timer`nextFire
      ensures TimersOk()
      ensures var n := old(b.timer.nextFire);
              && slots[..] == PutIn(old(slots[..]), (pos + Hop(n)) % SLOTS, b)
              && b.timer.nextFire == n - Hop(n)
      ensures slots[pos % SLOTS] == old(slots[pos % SLOTS])
    {
      hide Silenced;
      AddToCorrectSlot(b);
    }

    method FileBack(b: Box, ghost e: Entry)
      requires TimersOk() && History(fires, entries, pos) && slots.Length == SLOTS
      requires Continues(fires, b.timer, e.start)
      requires IsIn(b, entries, Hand) && b.id < |table| && table[b.id] != null
      requires b.timer.nextFire >= 1 && e.timer == b.timer
      modifies slots, b.timer`nextFire, this`entries, this`filings
      ensures TimersOk() && History(fires, entries, pos)
      ensures entries == old(entries)[b.id := Filed(e, pos, old(b.timer.nextFire), old(filings))]
      ensures filings == old(filings) + 1
      ensures slots[..] == PutIn(old(slots[..]), entries[b.id].due % SLOTS, b)
      ensures slots[pos % SLOTS] == old(slots[pos % SLOTS])
    {
      hide Linked, Owned, Spent, Silenced, History, Continues;
      ghost var e' := Filed(e, pos, b.timer.nextFire, filings);
      FileInSlot(b);
      LinksFiled(table, entries, timers, deleted, b.id, e');
      HistoryPut(fires, entries, pos, b.id, e');
      entries := entries[b.id := e'];
      filings := filings + 1;
    }

    /** A live timer's box goes back on the wheel. */
    method Refile(b: Box, ghost e: Entry)
      requires Valid() && InHand(b) && table[b.id] != null
      requires b.timer.nextFire >= 1 && e.timer == b.timer && Track(Filed(e, pos, b.timer.nextFire, filings))
      requires Continues(fires, b.timer, e.start)
      modifies slots, b.timer`nextFire, this`entries, this`filings
      ensures Valid() && HandsFree(entries)
      ensures entries == old(entries)[b.id := Filed(e, pos, old(b.timer.nextFire), old(filings))]
      ensures filings == old(filings) + 1
      ensures slots[pos % SLOTS] == old(slots[pos % SLOTS])
    {
      hide SlotsOk, ListOk, FreeOk, WindowOk, TracksOk, StampsOk, GatheredFirst, Owned, Spent, Silenced, History;
      ghost var was, e' := Sight(pos, pos + LAP), Filed(e, pos, b.timer.nextFire, filings);
      assert entries.Keys + {b.id} == entries.Keys;
      AfterPut(was, free, |table|, b.id, e');
      FileBack(b, e);
      assert b == Box(b.id, e'.timer);
    }

    ghost method FiredGrows(f: Fire)
      requires Spent(fires, timers, deleted) && f.timer in timers
      requires Silenced(fires, deleted, deaths) && f.timer !in deleted
      modifies this`fires
      ensures fires == old(fires) + [f] && Spent(fires, timers, deleted) && Silenced(fires, deleted, deaths)
    {
      StillSilenced(fires, f, deleted, deaths);
      forall t | t in timers && t !in deleted && t.id == 0
        ensures HasFired(fires + [f], t)
      {
        FiresSnoc(fires, f, t);
      }
      fires := fires + [f];
    }

    lemma TimerInHand(b: Box)
      requires Valid() && InHand(b) && table[b.id] != null
      ensures b.timer in timers && b.timer !in deleted && b.timer.id == b.id >= 1
    {
    }

    lemma HandInTable(b: Box)
      requires Valid() && InHand(b)
      ensures b.id < |table|
    {
    }

    lemma StaysLive(b: Box)
      requires Valid() && b.timer in timers && b.timer !in deleted && b.timer.id == b.id >= 1
      ensures b.id < |table| && table[b.id] == b.timer
    {
    }

    method SetToInterval(b: Box)
      requires Valid() && InHand(b) && table[b.id] != null
      modifies b.timer`nextFire
      ensures Valid() && InHand(b) && b.timer.nextFire == b.timer.interval >= 1
    {
      hide WheelOk, History, Silenced;
      b.timer.SetNextFire(b.timer.interval);
    }

    /** Enters the expiry of the timer in the hand into the history. */
    ghost method Record(b: Box, viaFireAll: bool)
      requires Valid() && InHand(b) && table[b.id] != null
      requires Timely(Expiry(entries[b.id], pos, viaFireAll))
      requires Ready(fires, entries[b.id], pos) && Foremost(entries, b.id)
      modifies this`fires
      ensures Valid() && InHand(b) && HasFired(fires, b.timer) && LastAt(fires, b.timer) == pos
      ensures fires == old(fires) + [Expiry(entries[b.id], pos, viaFireAll)]
      ensures Extends(old(fires), fires, deleted, pos)
    {
      hide WheelOk, Linked, Owned, Spent, Silenced, History, HasFired, LastAt, Timely;
      TimerInHand(b);
      var f := Expiry(entries[b.id], pos, viaFireAll);
      HistoryGrows(fires, entries, pos, b.id, viaFireAll);
      FiresSnoc(fires, f, b.timer);
      FiredGrows(f);
    }

    /** Records the expiry and runs the callback; the box stays in the hand. */
    method RunCallback(b: Box, viaFireAll: bool)
      requires Valid() && InHand(b) && table[b.id] != null
      requires Timely(Expiry(entries[b.id], pos, viaFireAll))
      requires Ready(fires, entries[b.id], pos) && Foremost(entries, b.id)
      modifies this`table, this`free, this`entries, this`filings, this`timers, this`deleted, this`deaths, this`fires
      modifies slots, b.timer`nextFire
      ensures Valid() && InHand(b) && HasFired(fires, b.timer) && LastAt(fires, b.timer) == pos
      ensures b.timer !in deleted ==> table[b.id] != null
      ensures Undisturbed(old(entries), entries)
      ensures fires == old(fires) + [Expiry(old(entries)[b.id], pos, viaFireAll)]
      ensures Onward()
      ensures slots[pos % SLOTS] == old(slots[pos % SLOTS])
    {
      hide WheelOk, Linked, Owned, Spent, Silenced, History;
      hide HasFired, LastAt, Timely, Expiry, Extends, Ready, Foremost;
      ghost var was, dead := fires, deleted;
      TimerInHand(b);
      if viaFireAll {
        SetToInterval(b);
      }
      Record(b, viaFireAll);
      ghost var sofar := fires;
      OnTimer(b.timer);
      ExtendsFurther(was, sofar, fires, dead, dead, pos, pos);
      if b.timer !in deleted {
        StaysLive(b);
      }
    }

    /** After the callback: a repeated timer starts a new period, anything else leaves. */
    method Settle(b: Box)
      requires Valid() && InHand(b) && HasFired(fires, b.timer) && LastAt(fires, b.timer) == pos
      modifies this`free, this`entries, this`filings, slots, b.timer
      ensures Valid() && HandsFree(entries)
      ensures slots[pos % SLOTS] == old(slots[pos % SLOTS])
      ensures table[b.id] != null && b.timer.repeated
              ==> entries == old(entries)[b.id := NewPeriod(b.timer, pos, old(filings))] && free == old(free)
      ensures table[b.id] == null || !b.timer.repeated
              ==> entries == old(entries) - {b.id} && free == old(free) + [b.id]
    {
      hide WheelOk, Linked, Owned, Spent, Silenced, History, LastAt, HasFired;
      HandInTable(b);
      if IsTimerLive(b.id) {
        if b.timer.repeated {
          SetToInterval(b);
          NewPeriodTracks(b.timer, pos, filings);
          Refile(b, Entry(b.timer, Slot, pos, b.timer.interval, pos, 0, 0, false, false, 0));
        } else {
          Retire(b);
        }
      } else {
        Reclaim(b, pos, pos + LAP);
      }
    }

    /** A live timer with no distance left: its callback runs, then it starts over or leaves. */
    method Expire(b: Box, viaFireAll: bool)
      requires Valid() && InHand(b) && Track(entries[b.id]) && table[b.id] != null && entries[b.id].residual == 0
      requires entries[b.id].due <= pos <= entries[b.id].due + LAP
      requires !viaFireAll ==> pos == entries[b.id].due
      requires Ready(fires, entries[b.id], pos) && Foremost(entries, b.id)
      modifies this`table, this`free, this`entries, this`filings, this`timers, this`deleted
      modifies this`deaths, this`fires, slots, b.timer
      ensures Valid() && HandsFree(entries) && Undisturbed(old(entries) - {b.id}, entries)
      ensures fires == old(fires) + [Expiry(old(entries)[b.id], pos, viaFireAll)]
      ensures b.timer !in deleted ==> Served(old(entries)[b.id], b.id, entries, fires, pos, viaFireAll)
      ensures Onward()
      ensures slots[pos % SLOTS] == old(slots[pos % SLOTS])
    {
      hide WheelOk, Linked, Owned, Spent, Silenced, History, LastAt, HasFired, Extends, Track, Timely;
      ExpiryIsTimely(entries[b.id], pos, viaFireAll);
      RunCallback(b, viaFireAll);
      Settle(b);
    }

    /** Handles one box taken from a slot, or from the gathered list when `viaFireAll`. */
    method Visit(b: Box, viaFireAll: bool)
      requires Valid() && InHand(b) && Track(entries[b.id]) && b.id < |table|
      requires entries[b.id].due <= pos <= entries[b.id].due + LAP
      requires !viaFireAll ==> pos == entries[b.id].due
      requires table[b.id] != null ==> b.timer.nextFire == entries[b.id].residual
      requires Ready(fires, entries[b.id], pos) && Foremost(entries, b.id)
      modifies this`table, this`free, this`entries, this`filings, this`timers, this`deleted
      modifies this`deaths, this`fires, slots, b.timer
      ensures Valid() && HandsFree(entries) && Undisturbed(old(entries) - {b.id}, entries)
      ensures fires == if old(table[b.id]) != null && old(entries)[b.id].residual == 0
                       then old(fires) + [Expiry(old(entries)[b.id], pos, viaFireAll)] else old(fires)
      ensures old(table[b.id]) != null && b.timer !in deleted
              ==> Served(old(entries)[b.id], b.id, entries, fires, pos, viaFireAll)
      ensures Onward()
      ensures slots[pos % SLOTS] == old(slots[pos % SLOTS])
    {
      hide WheelOk, Linked, Owned, Spent, Silenced, History, LastAt, HasFired, Track;
      ghost var e := entries[b.id];
      if IsTimerLive(b.id) {
        if b.timer.nextFire == 0 {
          Expire(b, viaFireAll);
        } else {
          RefiledTracks(e, pos, viaFireAll, filings);
          Refile(b, e.(visits := e.visits + 1, late := e.late + (pos - e.due), caughtUp := e.caughtUp || viaFireAll));
        }
      } else {
        Reclaim(b, pos, pos + LAP);
      }
    }

    // ---------------------------------------------------------- one slot, one tick

    lemma Live(lo: nat, hi: nat, id: nat)
      requires Ok(lo, hi) && id in entries && entries[id].place != Hand && entries[id].timer !in deleted
      ensures id < |table| && table[id] != null
    {
      LiveBox(table, entries, timers, deleted, fires, pos, id);
    }

    lemma Intervals()
      requires Valid()
      ensures forall id :: id in entries ==> entries[id].timer.interval >= 1
    {
    }

    /** Takes the first box of the slot of tick `lo` into the hand. */
    method TakeFromSlot(ghost lo: nat, ghost hi: nat, slot: nat) returns (b: Box)
      requires Ok(lo, hi) && HandsFree(entries) && slot == lo % SLOTS && slots[slot] != []
      modifies slots, this`entries
      ensures Ok(lo, hi) && slots[slot] == old(slots[slot])[1..]
      ensures IsIn(b, entries, Hand) && OnlyHand(entries, b.id)
      ensures entries[b.id].due == lo && Track(entries[b.id]) && Between(entries, b.id)
      ensures entries == Moved(old(entries), b.id, Hand) && b.id in old(entries)
      ensures b.timer in timers && b.id < |table|
      ensures table[b.id] != null ==> b.timer.nextFire == entries[b.id].residual
      ensures Ready(fires, entries[b.id], pos)
      ensures b.timer !in deleted ==> table[b.id] != null
    {
      hide SlotsOk, ListOk, FreeOk, WindowOk, TracksOk, StampsOk, GatheredFirst;
      hide History, Linked, Owned, Spent, Silenced;
      AfterTakeSlot(Sight(lo, hi));
      HistoryMoved(fires, entries, pos, slots[slot][0].id, Hand);
      LinksTaken(table, entries, timers, deleted, slots[slot][0].id);
      b := slots[slot][0];
      if b.timer !in deleted {
        Live(lo, hi, b.id);
      }
      slots[slot] := slots[slot][1..];
      entries := Moved(entries, b.id, Hand);
    }

    /** The box `id` was visited: it was served unless its timer is dead, and no other moved. */
    twostate predicate VisitedOne(id: nat, viaFireAll: bool)
      reads this
    {
      && id in old(entries) && old(entries)[id].due <= pos
      && Undisturbed(old(entries) - {id}, entries)
      && OneMore(old(fires), fires, pos)
      && (old(entries)[id].timer in deleted || Served(old(entries)[id], id, entries, fires, pos, viaFireAll))
    }

    method VisitFirst(slot: nat) returns (ghost id: nat)
      requires Valid() && HandsFree(entries) && slot == pos % SLOTS && slots[slot] != [] && fireNext == |fireAll|
      modifies this`table, this`free, this`entries, this`filings, this`timers, this`deleted
      modifies this`deaths, this`fires, slots, timers
      ensures Valid() && HandsFree(entries) && slots[slot] == old(slots[slot])[1..]
      ensures VisitedOne(id, false) && Onward()
    {
      hide WheelOk, Linked, Owned, Spent, Silenced, History, HasFired, LastAt, Extends, Ready, Foremost, Served;
      ghost var was: Entries := entries;
      NoneGathered();
      var b := TakeFromSlot(pos, pos + LAP, slot);
      NowForemost(was, entries, b.id);
      id := b.id;
      assert was - {id} == entries - {id};
      ghost var en := entries;
      Visit(b, false);
      if b.timer !in deleted {
        AwaitedIsServed(was[id], id, en, entries, fires, pos, false);
      }
    }

    lemma InTurn(was: Entries, viaFireAll: bool)
      requires Valid()
      ensures ServedInTurn(was, fires, pos, viaFireAll)
    {
      ChainKeepsTurns(was, fires, pos, viaFireAll);
    }

    lemma SlotDone()
      requires Idle() && slots[pos % SLOTS] == []
      ensures forall id :: id in entries ==> pos + 1 <= entries[id].due
    {
      NoneGathered();
      NothingDueNow(Sight(pos, pos + LAP));
    }

    /** Runs everything due at the current tick: each live timer is served once, first filed, first served. */
    method ProcessSlot()
      requires Idle()
      modifies this`table, this`free, this`entries, this`filings, this`timers, this`deleted
      modifies this`deaths, this`fires, slots, timers
      ensures Idle() && slots[pos % SLOTS] == []
      ensures AllServed(old(entries), pos + 1, deleted, entries, fires, pos, false)
      ensures AllIn(old(slots[pos % SLOTS]), old(entries)) && InServingOrder(old(slots[pos % SLOTS]), old(entries))
      ensures ServedInTurn(old(entries), fires, pos, false)
      ensures Onward()
    {
      hide WheelOk, Linked, Owned, Spent, Silenced, History;
      hide Served, OneMore, InProgress, AllServed, AllAwait, Undisturbed;
      ghost var was := entries;
      Intervals();
      SlotInServingOrder(Sight(pos, pos + LAP));
      hide InServingOrder, AllIn, ServedInTurn;
      NothingMoved(entries, deleted);
      WorkStarts(was, pos + 1, deleted, entries, fires, pos, false);
      var slot := pos % SLOTS;
      while slots[slot] != []
        invariant Idle()
        invariant InProgress(was, pos + 1, deleted, entries, fires, pos, false)
        invariant Onward()
        decreases |slots[slot]|
      {
        ghost var en, fs, dead := entries, fires, deleted;
        ghost var id := VisitFirst(slot);
        ProgressOne(was, pos + 1, dead, deleted, id, en, entries, fs, fires, pos, false);
        ExtendsFurther(old(fires), fs, fires, old(deleted), dead, old(pos), pos);
      }
      SlotDone();
      WorkDone(was, pos + 1, deleted, entries, fires, pos, false);
      InTurn(was, false);
    }

    // ------------------------------------------------------------------- catch-up

    method GatherFirst(ui: nat, ghost hi: nat, slot: nat)
      requires Ok(ui, hi) && HandsFree(entries) && fireNext == 0
      requires GatheredSince(hi, entries) && hi <= ui + LAP
      requires slot == ui % SLOTS && slots[slot] != []
      modifies this`free, this`entries, this`fireAll, slots
      ensures Ok(ui, hi) && HandsFree(entries) && GatheredSince(hi, entries)
      ensures slots[slot] == old(slots[slot])[1..]
      ensures AllAwait(old(entries), deleted, entries)
    {
      hide WheelOk, Linked, Owned, Spent, Silenced, History;
      var b := TakeFromSlot(ui, hi, slot);
      if IsTimerLive(b.id) {
        Gather(b, ui, hi);
      } else {
        Reclaim(b, ui, hi);
      }
    }

    /** Empties the slot of tick `ui` into the gathered list, dropping dead boxes. */
    method GatherSlot(ui: nat, ghost hi: nat)
      requires Ok(ui, hi) && HandsFree(entries) && fireNext == 0
      requires GatheredSince(hi, entries) && hi <= ui + LAP
      modifies this`free, this`entries, this`fireAll, slots
      ensures Ok(ui, hi) && HandsFree(entries) && GatheredSince(hi, entries)
      ensures slots[ui % SLOTS] == []
      ensures AllAwait(old(entries), deleted, entries)
    {
      hide WheelOk, Linked, Owned, Spent, Silenced, History;
      ghost var was := entries;
      var slot := ui % SLOTS;
      while slots[slot] != []
        invariant Ok(ui, hi) && HandsFree(entries)
        invariant GatheredSince(hi, entries)
        invariant AllAwait(was, deleted, entries)
        decreases |slots[slot]|
      {
        ghost var en := entries;
        GatherFirst(ui, hi, slot);
        AwaitFurther(was, deleted, en, entries);
      }
    }

    method Gather(b: Box, ghost lo: nat, ghost hi: nat)
      requires Ok(lo, hi) && fireNext == 0
      requires IsIn(b, entries, Hand) && OnlyHand(entries, b.id) && Track(entries[b.id])
      requires entries[b.id].due == lo && table[b.id] != null && b.timer.nextFire == entries[b.id].residual
      requires Ready(fires, entries[b.id], pos) && Between(entries, b.id)
      modifies this`fireAll, this`entries
      ensures Ok(lo, hi) && HandsFree(entries)
      ensures entries == Moved(old(entries), b.id, Gathered)
    {
      hide WheelOk, History, Silenced;
      HistoryMoved(fires, entries, pos, b.id, Gathered);
      AfterGather(Sight(lo, hi), b);
      fireAll := fireAll + [b];
      entries := Moved(entries, b.id, Gathered);
    }

    method GatherTick(ui: nat, ghost hi: nat)
      requires Ok(ui, hi) && HandsFree(entries) && fireNext == 0
      requires GatheredSince(hi, entries) && ui < hi <= ui + LAP
      modifies this`free, this`entries, this`fireAll, slots
      ensures Ok(ui + 1, hi) && HandsFree(entries) && GatheredSince(hi, entries)
      ensures AllAwait(old(entries), deleted, entries)
    {
      hide SlotsOk, ListOk, FreeOk, WindowOk, TracksOk, StampsOk, GatheredFirst;
      hide Linked, Owned, Spent, Silenced, History;
      GatherSlot(ui, hi);
      AfterGatherTick(Sight(ui, hi));
    }

    lemma NoneGathered()
      requires Valid() && fireNext == |fireAll|
      ensures forall id :: id in entries ==> entries[id].place != Gathered
    {
      assert fireAll[fireNext..] == [];
      NothingGathered(entries);
    }

    /** Sweeps the slots of the ticks to catch up on, at most a lap of them,
        and moves the current tick past them. */
    method GatherAll()
      requires Idle()
      modifies this`free, this`entries, this`fireAll, this`deviation, this`pos, slots
      ensures Valid() && HandsFree(entries) && fireNext == 0 && deviation == 0
      ensures AllAwait(old(entries), deleted, entries)
      ensures pos == old(pos) + if old(deviation) > LAP then LAP else old(deviation)
      ensures AllIn(fireAll, entries) && InServingOrder(fireAll, entries)
    {
      hide WheelOk, Linked, Owned, Spent, Silenced, History;
      ghost var hi, was := pos + LAP, entries;
      NoneGathered();
      var temp := 0;
      var ui := pos;
      while ui < pos + deviation
        invariant pos <= ui <= pos + deviation && temp == ui - pos && temp <= LAP
        invariant pos == old(pos) && deviation == old(deviation)
        invariant Ok(ui, hi) && HandsFree(entries) && fireNext == 0 && GatheredSince(hi, entries)
        invariant AllAwait(was, deleted, entries)
      {
        temp := temp + 1;
        if temp == SLOTS {
          deviation := temp - 1;
          break;
        }
        ghost var en := entries;
        GatherTick(ui, hi);
        AwaitFurther(was, deleted, en, entries);
        ui := ui + 1;
      }
      JumpTo(ui, hi);
      GatheredInOrder();
    }

    lemma GatheredInOrder()
      requires Valid() && fireNext == 0
      ensures AllIn(fireAll, entries) && InServingOrder(fireAll, entries)
    {
      assert fireAll[0..] == fireAll;
    }

    method JumpTo(ui: nat, ghost hi: nat)
      requires Ok(ui, hi) && ui == pos + deviation && hi <= ui + LAP
      modifies this`pos, this`deviation
      ensures Valid() && deviation == 0 && pos == ui
    {
      hide SlotsOk, ListOk, FreeOk, WindowOk, TracksOk, StampsOk, GatheredFirst;
      hide Linked, Owned, Spent, Silenced, History;
      WidenWindow(Sight(ui, hi), ui + LAP);
      HistoryLater(fires, entries, pos, ui);
      pos := pos + deviation;
      deviation := 0;
    }

    /** Takes the next gathered box into the hand. */
    method TakeGathered() returns (b: Box)
      requires Valid() && HandsFree(entries) && fireNext < |fireAll|
      modifies this`fireNext, this`entries
      ensures Valid() && InHand(b) && Track(entries[b.id]) && fireNext == old(fireNext) + 1
      ensures Foremost(entries, b.id)
      ensures b.id in old(entries) && entries == Moved(old(entries), b.id, Hand)
      ensures b.timer in timers && b.id < |table|
      ensures entries[b.id].due <= pos <= entries[b.id].due + LAP
      ensures table[b.id] != null ==> b.timer.nextFire == entries[b.id].residual
      ensures Ready(fires, entries[b.id], pos)
      ensures b.timer !in deleted ==> table[b.id] != null
    {
      hide WheelOk, History, Linked, Owned, Spent, Silenced;
      b := fireAll[fireNext];
      assert b == fireAll[fireNext..][0];
      AfterTakeGathered(Sight(pos, pos + LAP));
      if b.timer !in deleted {
        Live(pos, pos + LAP, b.id);
      }
      HistoryMoved(fires, entries, pos, b.id, Hand);
      LinksTaken(table, entries, timers, deleted, b.id);
      assert fireAll[fireNext..][1..] == fireAll[fireNext + 1..];
      fireNext := fireNext + 1;
      entries := Moved(entries, b.id, Hand);
    }

    method VisitGathered() returns (ghost id: nat)
      requires Valid() && HandsFree(entries) && fireNext < |fireAll|
      modifies this`table, this`free, this`entries, this`filings, this`timers
      modifies this`deleted, this`deaths, this`fires, this`fireNext
      modifies slots, timers
      ensures Valid() && HandsFree(entries) && fireNext == old(fireNext) + 1
      ensures VisitedOne(id, true) && Onward()
    {
      hide WheelOk, Linked, Owned, Spent, Silenced, History, HasFired, LastAt, Extends, Ready, Foremost, Served;
      ghost var was: Entries := entries;
      var b := TakeGathered();
      id := b.id;
      assert was - {id} == entries - {id};
      ghost var en := entries;
      Visit(b, true);
      if b.timer !in deleted {
        AwaitedIsServed(was[id], id, en, entries, fires, pos, true);
      }
    }

    /** Catches up: every box due in the skipped ticks is visited once, right after the jump, in the
        order of the due ticks and, within one, first filed, first served. */
    method FireAll()
      requires Idle()
      modifies this, slots, timers
      ensures Idle() && deviation == 0
      ensures pos == old(pos) + if old(deviation) > LAP then LAP else old(deviation)
      ensures AllServed(old(entries), pos, deleted, entries, fires, pos, true)
      ensures ServedInTurn(old(entries), fires, pos, true)
      ensures Onward()
    {
      hide WheelOk, Linked, Owned, Spent, Silenced, History;
      hide Served, OneMore, InProgress, AllServed, AllAwait, Undisturbed;
      ghost var was := entries;
      Intervals();
      GatherAll();
      ghost var now, n := pos, |fireAll|;
      WorkStarts(was, pos, deleted, entries, fires, pos, true);
      while fireNext < |fireAll|
        invariant Valid() && HandsFree(entries) && fireNext <= |fireAll| == n
        invariant deviation == 0 && pos == now
        invariant InProgress(was, pos, deleted, entries, fires, pos, true)
        invariant Onward()
        decreases n - fireNext
      {
        ghost var en, fs, dead := entries, fires, deleted;
        ghost var id := VisitGathered();
        ProgressOne(was, pos, dead, deleted, id, en, entries, fs, fires, pos, true);
        ExtendsFurther(old(fires), fs, fires, old(deleted), dead, old(pos), pos);
      }
      AllOnWheel();
      WorkDone(was, pos, deleted, entries, fires, pos, true);
      InTurn(was, true);
      ClearGathered();
    }

    lemma AllOnWheel()
      requires Valid() && HandsFree(entries) && fireNext == |fireAll|
      ensures forall id :: id in entries ==> entries[id].place == Slot && pos <= entries[id].due
    {
      NoneGathered();
    }

    method ClearGathered()
      requires Valid() && HandsFree(entries) && fireNext == |fireAll|
      modifies this`fireAll, this`fireNext
      ensures Idle()
    {
      hide WheelOk, Linked, Owned, Spent, Silenced, History;
      assert fireAll[fireNext..] == [];
      fireAll, fireNext := [], 0;
    }

    // -------------------------------------------------------------- the event loop

    predicate SlotEmpty(tick: nat)
      requires slots.Length == SLOTS
      reads slots
    {
      slots[tick % SLOTS] == []
    }

    /** Ticks from `k` ahead to just past the nearest occupied slot, or to the longest poll. */
    ghost function LookAhead(k: nat): (n: nat)
      requires slots.Length == SLOTS && k < MAX_EPOL_WAIT
      reads this`pos, slots
      ensures k + 1 <= n <= MAX_EPOL_WAIT
      ensures forall t :: pos + k <= t < pos + n - 1 ==> SlotEmpty(t)
      ensures n < MAX_EPOL_WAIT ==> !SlotEmpty(pos + n - 1)
      decreases MAX_EPOL_WAIT - k
    {
      if !SlotEmpty(pos + k) || k + 1 == MAX_EPOL_WAIT then k + 1 else LookAhead(k + 1)
    }

    /** The look-ahead loop finds the nearest occupied slot within the longest poll. */
    method PollInterval() returns (interval: nat)
      requires slots.Length == SLOTS
      ensures interval == LookAhead(0)
    {
      interval := MAX_EPOL_WAIT;
      var ui := pos;
      while ui < pos + MAX_EPOL_WAIT
        invariant pos <= ui <= pos + MAX_EPOL_WAIT && interval == MAX_EPOL_WAIT
        invariant ui < pos + MAX_EPOL_WAIT ==> LookAhead(0) == LookAhead(ui - pos)
        invariant ui == pos + MAX_EPOL_WAIT ==> LookAhead(0) == MAX_EPOL_WAIT
      {
        if !SlotEmpty(ui) {
          interval := ui - pos + 1;
          break;
        }
        ui := ui + 1;
      }
    }

    /** Moves to the next tick past an empty slot. */
    method Tick()
      requires Idle() && SlotEmpty(pos)
      modifies this`pos
      ensures Idle() && pos == old(pos) + 1
    {
      hide SlotsOk, ListOk, FreeOk, WindowOk, TracksOk, StampsOk, GatheredFirst;
      hide Linked, Owned, Spent, Silenced, History;
      AfterTick(Sight(pos, pos + LAP), pos + 1 + LAP);
      HistoryLater(fires, entries, pos, pos + 1);
      pos := pos + 1;
    }

    /** Moves to the next tick; boxes it steps over are met a turn later. */
    method StepOver()
      requires Idle() && Skippable(entries, pos + 1)
      modifies this`pos, this`entries
      ensures Idle() && pos == old(pos) + 1 && entries == SteppedOver(old(entries), old(pos))
    {
      hide SlotsOk, ListOk, FreeOk, WindowOk, TracksOk, StampsOk, GatheredFirst;
      hide Linked, Owned, Spent, Silenced, History;
      AfterStepOver(Sight(pos, pos + LAP), pos + 1 + LAP);
      HistorySteppedOver(fires, entries, pos);
      HistoryLater(fires, SteppedOver(entries, pos), pos, pos + 1);
      LinksSteppedOver(table, entries, timers, deleted, pos);
      entries := SteppedOver(entries, pos);
      pos := pos + 1;
    }

    /** Moves the current tick on; exactly the boxes due in between are missed. */
    method Skip(ticks: nat)
      requires Idle() && Skippable(entries, pos + ticks) && ticks <= LAP
      modifies this`pos, this`entries
      ensures Idle() && pos == old(pos) + ticks && entries == Jumped(old(entries), pos)
    {
      hide WheelOk, Linked, Owned, Spent, Silenced, History, Jumped, SteppedOver, Skippable;
      ghost var was, start := entries, pos;
      AllOnWheel();
      JumpNone(was, pos);
      var end := pos + ticks;
      while pos < end
        invariant start <= pos <= end <= start + LAP && Idle()
        invariant entries == Jumped(was, pos)
      {
        JumpOne(was, start, pos, end);
        StepOver();
      }
    }

    ghost predicate NoneDueAt(tick: nat)
      reads this
    {
      forall id :: id in entries ==> entries[id].due != tick
    }

    lemma NoneDueBefore(skip: nat)
      requires Idle() && skip <= LAP && forall t :: pos <= t < pos + skip ==> SlotEmpty(t)
      ensures forall id :: id in entries ==> pos + skip <= entries[id].due
    {
      AllOnWheel();
      forall t | pos <= t < pos + skip
        ensures NoneDueAt(t)
      {
        assert SlotEmpty(t) && SlotOk(slots[..][t % SLOTS], t % SLOTS, entries);
        EmptySlot(t % SLOTS, entries);
      }
      forall id | id in entries
        ensures pos + skip <= entries[id].due
      {
        assert entries[id].due < pos + skip ==> NoneDueAt(entries[id].due);
      }
    }

    /** A poll and the jump over `skip` ticks after it. */
    method PollAndSkip(skip: nat)
      requires Idle() && skip < MAX_EPOL_WAIT && forall t :: pos <= t < pos + skip ==> SlotEmpty(t)
      modifies this`pos, this`table, this`free, this`entries, this`filings
      modifies this`timers, this`deleted, this`deaths, slots
      ensures Idle() && Onward() && pos == old(pos) + skip
      ensures PolledTo(old(entries), entries, old(pos), skip)
    {
      hide WheelOk, Linked, Owned, Spent, Silenced, History, Extends;
      hide NewPeriod, Missed, Jumped, Skippable, PolledTo;
      hide Undisturbed, Newborn;
      ghost var was, start := entries, pos;
      NoneDueBefore(skip);
      ReadSockets();
      ghost var polled := entries;
      NewbornsAreSkippable(was, entries, pos, skip);
      Skip(skip);
      AfterPoll(was, polled, start, skip);
    }

    /** Polls until the nearest occupied slot at most, then accounts for the time it took. The
        jump steps over no box that was on the wheel before the poll, and of the timers created
        during the poll it misses exactly those shorter than the jump. */
    method Poll(polled: nat)
      requires Idle()
      modifies this`pos, this`deviation, this`table, this`free, this`entries
      modifies this`filings, this`timers, this`deleted, this`deaths
      modifies slots
      ensures Idle() && Onward()
      ensures var interval := old(LookAhead(0));
              if interval < polled
              then pos == old(pos) + interval - 1 && deviation == old(deviation) + (polled - interval) + 1
              else pos == old(pos) + (if polled > 0 then polled - 1 else 0) && deviation == old(deviation)
      ensures PolledTo(old(entries), entries, old(pos), pos - old(pos))
    {
      hide WheelOk, Linked, Owned, Spent, Silenced, History, LookAhead, Extends, PolledTo;
      var interval := PollInterval();
      if interval < polled {
        PollAndSkip(interval - 1);
        deviation := deviation + (polled - interval) + 1;
      } else {
        PollAndSkip(if polled > 0 then polled - 1 else 0);
      }
    }

    /** Adds the measured lag and catches up if there is any. */
    method CatchUp(lag: nat, catchUp: nat)
      requires Idle()
      modifies this, slots, timers
      ensures Idle()
      ensures var due := old(deviation) + lag / 2;
              && pos == old(pos) + (if due > LAP then LAP else due)
              && deviation == if due > 0 then catchUp / 2 else 0
      ensures Onward()
    {
      hide WheelOk, Linked, Owned, Spent, Silenced, History;
      deviation := deviation + lag / 2;
      if deviation > 0 {
        FireAll();
        deviation := deviation + catchUp / 2;
      }
    }

    /** One turn of the loop. `lag`, `catchUp` and `polled` are the elapsed milliseconds
        measured before catching up, while catching up, and while polling. */
    method Turn(lag: nat, catchUp: nat, polled: nat)
      requires Idle()
      modifies this, slots, timers
      ensures Idle() && pos > old(pos)
      ensures var due := old(deviation) + lag / 2;
              var reached := old(pos) + 1 + if due > LAP then LAP else due;
              var carried := if due > 0 then catchUp / 2 else 0;
              && reached <= pos < reached + MAX_EPOL_WAIT
              && if deviation == carried
                 then pos == reached + (if polled > 0 then polled - 1 else 0)
                 else pos + deviation == reached + carried + polled
      ensures Onward()
    {
      hide WheelOk, Linked, Owned, Spent, Silenced, History, Extends, PolledTo, AllServed, LookAhead;
      ghost var start, dead, since := fires, deleted, pos;
      ProcessSlot();
      Tick();
      ghost var sofar, dead', since' := fires, deleted, pos;
      CatchUp(lag, catchUp);
      ExtendsFurther(start, sofar, fires, dead, dead', since, since');
      sofar, dead', since' := fires, deleted, pos;
      Poll(polled);
      ExtendsFurther(start, sofar, fires, dead, dead', since, since');
    }

    /** The event loop for any number of turns and any measured times. */
    method Run(times: seq<(nat, nat, nat)>)
      requires Idle()
      modifies this, slots, timers
      ensures Idle() && pos >= old(pos) + |times|
      ensures Onward() && Chained(fires) && Silenced(fires, deleted, deaths) && NoneForgotten()
    {
      var i := 0;
      while i < |times|
        invariant i <= |times| && Idle() && pos >= old(pos) + i
        invariant Onward()
      {
        hide WheelOk, Linked, Owned, Spent, Silenced, History;
        ghost var sofar, dead, since := fires, deleted, pos;
        Turn(times[i].0, times[i].1, times[i].2);
        ExtendsFurther(old(fires), sofar, fires, old(deleted), dead, old(pos), since);
        i := i + 1;
      }
      EveryTimerIsServed();
    }

    /** Every timer not deleted either is a one-shot timer that has fired, or still has its box
        on the wheel, in a period that is not overdue. */
    ghost predicate NoneForgotten()
      reads this, timers
    {
      forall t {:trigger t in timers} :: t in timers && t !in deleted ==>
        if t.id == 0 then !t.repeated && HasFired(fires, t)
        else t.id in entries && entries[t.id].timer == t && Pending(entries[t.id])
    }

    ghost predicate Pending(e: Entry)
      reads this
    {
      && Continues(fires, e.timer, e.start)
      && e.visits < Laps(e.timer.interval)
      && pos <= e.start + e.timer.interval + LAP * e.visits + Penalty(e.missed)
      && (e.missed ==> Short(e.timer))
    }

    lemma EveryTimerIsServed()
      requires Idle()
      ensures NoneForgotten()
    {
      NoneGathered();
      forall t | t in timers && t !in deleted && t.id != 0
        ensures t.id in entries && entries[t.id].timer == t && Pending(entries[t.id])
      {
        NotOverdue(entries[t.id], pos);
      }
    }
  }
}
