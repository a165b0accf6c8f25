/** The timing wheel on values: which box sits where, which IDs are free, and how far
    a timer still has to travel. */
module Wheel {

  /** `MAX_ARRAY_SIZE` slots; a box is never put more than one lap minus one tick ahead. */
  const SLOTS: nat := 1024
  const LAP: nat := 1023
  const TIMERS_STEP: nat := 128
  const MAX_EPOL_WAIT: nat := 5

  class Timer {
    const interval: nat
    const repeated: bool
    ghost const born: nat             // the tick of its creation
    var nextFire: nat
    var id: nat

    constructor (interval: nat, repeated: bool, id: nat, ghost born: nat)
      ensures this.interval == interval && this.repeated == repeated && this.born == born
      ensures nextFire == 0 && this.id == id
    {
      this.interval, this.repeated, this.id, this.born := interval, repeated, id, born;
      nextFire := 0;
    }

    method SetNextFire(ticks: nat)
      modifies this`nextFire
      ensures nextFire == ticks
    {
      nextFire := ticks;
    }

    method ResetTimerId()
      modifies this`id
      ensures id == 0
    {
      id := 0;
    }
  }

  datatype Box = Box(id: nat, timer: Timer)

  /** A box is in a slot, gathered by `FireAll`, or in the hand of the code visiting it. */
  datatype Place = Slot | Gathered | Hand

  /** The history of the box carrying an ID: its current period began at tick `start`, the box
      is due at tick `due`, has been visited `visits` times and was re-filed `late` ticks late.
      It was `missed` if the jump after the poll in which it was created stepped over it.
      Every filing of a box gets the next `stamp`. */
  datatype Entry = Entry(timer: Timer, place: Place, due: nat, residual: nat,
                         start: nat, visits: nat, late: nat, caughtUp: bool, missed: bool, stamp: nat)

  type Entries = map<nat, Entry>

  // ----------------------------------------------------------------- distances

  function Hop(n: nat): (h: nat)
    ensures h <= n && h <= LAP && (n > 0 ==> h > 0)
  {
    if n < SLOTS then n else LAP
  }

  /** How many hops cover `n` ticks. */
  function Laps(n: nat): nat {
    if n == 0 then 0 else 1 + Laps(n - Hop(n))
  }

  lemma {:induction false} LapsIsCeiling(n: nat)
    ensures Laps(n) == (n + LAP - 1) / LAP
  {
    if n > LAP {
      LapsIsCeiling(n - LAP);
      assert n - LAP + LAP - 1 + LAP == n + LAP - 1;
    } else if n > 0 {
      assert Laps(0) == 0;
    }
  }

  /** A missed box is met one turn of the wheel later. */
  function Penalty(missed: bool): nat {
    if missed then SLOTS else 0
  }

  /** Travelled plus remaining distance is the interval plus the delay picked up so far. */
  ghost predicate Track(e: Entry) {
    && e.timer.interval >= 1
    && e.due + e.residual == e.start + e.timer.interval + e.late
    && e.visits + 1 + Laps(e.residual) == Laps(e.timer.interval)
    && e.late <= LAP * e.visits + Penalty(e.missed)
    && (!e.caughtUp ==> e.late == 0)
    && (e.missed ==> e.caughtUp && Short(e.timer))
  }

  /** Only timers shorter than the longest jump after a poll can be missed. */
  predicate Short(t: Timer) {
    t.interval < MAX_EPOL_WAIT - 1
  }

  /** A box put on the wheel at tick `pos` for `n` ticks. */
  ghost function Filed(e: Entry, pos: nat, n: nat, stamp: nat): Entry {
    e.(place := Slot, due := pos + Hop(n), residual := n - Hop(n), stamp := stamp)
  }

  ghost function NewPeriod(t: Timer, pos: nat, stamp: nat): Entry {
    Filed(Entry(t, Slot, pos, t.interval, pos, 0, 0, false, false, stamp), pos, t.interval, stamp)
  }

  ghost function Refiled(e: Entry, pos: nat, viaFireAll: bool, stamp: nat): Entry
    requires e.due <= pos
  {
    Filed(e.(visits := e.visits + 1, late := e.late + (pos - e.due), caughtUp := e.caughtUp || viaFireAll),
          pos, e.residual, stamp)
  }

  lemma NewPeriodTracks(t: Timer, pos: nat, stamp: nat)
    requires t.interval >= 1
    ensures var e := NewPeriod(t, pos, stamp);
            && Track(e) && e.timer == t && e.place == Slot && e.stamp == stamp
            && pos < e.due == pos + Hop(t.interval) <= pos + LAP
  {
  }

  lemma RefiledTracks(e: Entry, pos: nat, viaFireAll: bool, stamp: nat)
    requires Track(e) && e.residual > 0 && e.due <= pos <= e.due + LAP
    requires !viaFireAll ==> pos == e.due
    ensures Track(Refiled(e, pos, viaFireAll, stamp))
  {
  }

  /** One expiry, as seen when the callback runs: `due` and `stamp` are those of the box. */
  datatype Fire = Fire(timer: Timer, start: nat, at: nat, visits: nat, caughtUp: bool, missed: bool,
                       due: nat, stamp: nat)

  /** Never early; on the dot unless a catch-up jump interfered; late by at most one lap a visit,
      and one turn more for a short timer that was missed; the interval fixes the number of visits. */
  ghost predicate Timely(f: Fire) {
    && f.start + f.timer.interval <= f.at <= f.start + f.timer.interval + LAP * f.visits + Penalty(f.missed)
    && (f.missed ==> f.caughtUp && Short(f.timer))
    && f.due <= f.at
    && (!f.caughtUp ==> f.at == f.start + f.timer.interval)
    && f.visits == (f.timer.interval + LAP - 1) / LAP
  }

  ghost function Expiry(e: Entry, pos: nat, viaFireAll: bool): Fire {
    Fire(e.timer, e.start, pos, e.visits + 1, e.caughtUp || viaFireAll, e.missed, e.due, e.stamp)
  }

  lemma ExpiryIsTimely(e: Entry, pos: nat, viaFireAll: bool)
    requires Track(e) && e.residual == 0 && e.due <= pos <= e.due + LAP
    requires !viaFireAll ==> pos == e.due
    ensures Timely(Expiry(e, pos, viaFireAll))
  {
    LapsIsCeiling(e.timer.interval);
    assert Laps(0) == 0;
  }

  // ---------------------------------------------------------------------- order

  /** Boxes are served in the order of their due ticks, and first filed, first served within one. */
  predicate Sooner(due: nat, stamp: nat, due': nat, stamp': nat) {
    due < due' || (due == due' && stamp < stamp')
  }

  ghost predicate Before(e: Entry, e': Entry) {
    Sooner(e.due, e.stamp, e'.due, e'.stamp)
  }

  /** Expiries are ordered by time, and at one tick by the order of their boxes. */
  predicate Precedes(f: Fire, f': Fire) {
    f.at < f'.at || (f.at == f'.at && Sooner(f.due, f.stamp, f'.due, f'.stamp))
  }

  // -------------------------------------------------------------------- history

  ghost predicate HasFired(fires: seq<Fire>, t: Timer) {
    exists k :: 0 <= k < |fires| && fires[k].timer == t
  }

  /** The tick of the last expiry of `t`, or of its creation. */
  ghost function LastAt(fires: seq<Fire>, t: Timer): nat {
    if fires == [] then t.born
    else if fires[|fires| - 1].timer == t then fires[|fires| - 1].at
    else LastAt(fires[..|fires| - 1], t)
  }

  /** A period of `t` starts where its previous one ended, and a one-shot timer has only one. */
  ghost predicate Continues(fires: seq<Fire>, t: Timer, start: nat) {
    start == LastAt(fires, t) && (HasFired(fires, t) ==> t.repeated)
  }

  /** Expiries are timely and in order, the periods of a timer follow on one another
      without a gap, and a one-shot timer expires once. */
  ghost predicate Chained(fires: seq<Fire>) {
    && (forall k :: 0 <= k < |fires| ==> Timely(fires[k]) && Continues(fires[..k], fires[k].timer, fires[k].start))
    && (forall i, j :: 0 <= i < j < |fires| ==> Precedes(fires[i], fires[j]))
  }

  /** Everything that fired at tick `pos` came before the box of `e`. */
  ghost predicate Behind(fires: seq<Fire>, e: Entry, pos: nat) {
    forall k :: 0 <= k < |fires| && fires[k].at == pos ==> Sooner(fires[k].due, fires[k].stamp, e.due, e.stamp)
  }

  ghost predicate Ready(fires: seq<Fire>, e: Entry, pos: nat) {
    Continues(fires, e.timer, e.start) && Behind(fires, e, pos)
  }

  /** The box in the hand comes before all others. */
  ghost predicate Foremost(en: Entries, id: nat) {
    id in en && forall i :: i in en && i != id ==> Before(en[id], en[i])
  }

  /** A timer has one box at most. */
  ghost predicate OneBoxEach(en: Entries) {
    forall i, j :: i in en && j in en && i != j ==> en[i].timer != en[j].timer
  }

  /** What happened up to tick `pos`, and where the boxes in circulation stand. */
  ghost predicate History(fires: seq<Fire>, en: Entries, pos: nat) {
    && Chained(fires)
    && (forall k :: 0 <= k < |fires| ==> fires[k].at <= pos)
    && OneBoxEach(en)
    && (forall id :: id in en && en[id].place != Hand ==> Ready(fires, en[id], pos))
  }

  lemma FiresSnoc(fires: seq<Fire>, f: Fire, t: Timer)
    ensures LastAt(fires + [f], t) == if f.timer == t then f.at else LastAt(fires, t)
    ensures HasFired(fires + [f], t) <==> HasFired(fires, t) || f.timer == t
  {
    var fires' := fires + [f];
    assert fires'[..|fires|] == fires;
    if HasFired(fires, t) {
      var k :| 0 <= k < |fires| && fires[k].timer == t;
      assert fires'[k] == fires[k];
    }
    assert fires'[|fires|] == f;
  }

  lemma {:induction false} NeverFired(fires: seq<Fire>, t: Timer)
    requires !HasFired(fires, t)
    ensures LastAt(fires, t) == t.born
  {
    if fires != [] {
      assert fires[|fires| - 1].timer != t;
      NeverFired(fires[..|fires| - 1], t);
    }
  }

  lemma HistoryPut(fires: seq<Fire>, en: Entries, pos: nat, id: nat, e: Entry)
    requires History(fires, en, pos) && Continues(fires, e.timer, e.start) && pos < e.due
    requires if id in en then en[id].timer == e.timer else forall i :: i in en ==> en[i].timer != e.timer
    ensures History(fires, en[id := e], pos)
  {
    forall k | 0 <= k < |fires| && fires[k].at == pos
      ensures Sooner(fires[k].due, fires[k].stamp, e.due, e.stamp)
    {
      assert Timely(fires[k]);
    }
  }

  lemma HistoryDrop(fires: seq<Fire>, en: Entries, pos: nat, id: nat)
    requires History(fires, en, pos)
    ensures History(fires, en - {id}, pos)
  {
  }

  lemma HistoryMoved(fires: seq<Fire>, en: Entries, pos: nat, id: nat, p: Place)
    requires History(fires, en, pos) && id in en
    requires p != Hand ==> Ready(fires, en[id], pos)
    ensures History(fires, Moved(en, id, p), pos)
    ensures en[id].place != Hand ==> Ready(fires, en[id], pos) && Ready(fires, Moved(en, id, p)[id], pos)
  {
    hide Chained, Continues;
  }

  lemma HistoryLater(fires: seq<Fire>, en: Entries, pos: nat, later: nat)
    requires History(fires, en, pos) && pos <= later
    ensures History(fires, en, later)
  {
    hide Chained, Continues;
  }

  lemma ChainGrows(fires: seq<Fire>, f: Fire)
    requires Chained(fires) && Timely(f) && Continues(fires, f.timer, f.start)
    requires forall k :: 0 <= k < |fires| ==> Precedes(fires[k], f)
    ensures Chained(fires + [f])
  {
    hide Timely, Continues, Precedes;
    var fires' := fires + [f];
    forall k | 0 <= k < |fires'|
      ensures Timely(fires'[k]) && Continues(fires'[..k], fires'[k].timer, fires'[k].start)
    {
      assert fires'[..k] == if k < |fires| then fires[..k] else fires;
    }
  }

  /** The timer of the box in the hand expires now. */
  lemma HistoryGrows(fires: seq<Fire>, en: Entries, pos: nat, id: nat, viaFireAll: bool)
    requires History(fires, en, pos) && id in en && en[id].place == Hand
    requires Ready(fires, en[id], pos) && Foremost(en, id) && Timely(Expiry(en[id], pos, viaFireAll))
    ensures History(fires + [Expiry(en[id], pos, viaFireAll)], en, pos)
  {
    var f := Expiry(en[id], pos, viaFireAll);
    ChainGrows(fires, f);
    hide Chained, Timely;
    forall i | i in en && en[i].place != Hand
      ensures Ready(fires + [f], en[i], pos)
    {
      FiresSnoc(fires, f, en[i].timer);
      assert Before(en[id], en[i]);
    }
  }

  lemma ChainedAt(fires: seq<Fire>, i: nat, j: nat)
    requires Chained(fires) && i < j < |fires|
    ensures Precedes(fires[i], fires[j])
  {
  }

  /** Of two boxes served at the same tick the one that comes before the other fires first. */
  lemma ServedInOrder(fires: seq<Fire>, e: Entry, e': Entry, pos: nat, viaFireAll: bool, p: nat, q: nat)
    requires Chained(fires) && Before(e, e') && p < |fires| && q < |fires|
    requires fires[p] == Expiry(e, pos, viaFireAll) && fires[q] == Expiry(e', pos, viaFireAll)
    ensures p < q
  {
    if q < p {
      ChainedAt(fires, q, p);
    }
  }

  /** The expiries of the boxes in `was` at tick `pos` stand in the order of these boxes. */
  ghost predicate ServedInTurn(was: Entries, fires: seq<Fire>, pos: nat, viaFireAll: bool) {
    forall i, j, p, q {:trigger Before(was[i], was[j]), fires[p], fires[q]} ::
      i in was && j in was && Before(was[i], was[j]) && 0 <= p < |fires| && 0 <= q < |fires|
      && fires[p] == Expiry(was[i], pos, viaFireAll) && fires[q] == Expiry(was[j], pos, viaFireAll)
      ==> p < q
  }

  lemma ChainKeepsTurns(was: Entries, fires: seq<Fire>, pos: nat, viaFireAll: bool)
    requires Chained(fires)
    ensures ServedInTurn(was, fires, pos, viaFireAll)
  {
    hide Chained;
    forall i, j, p, q | i in was && j in was && Before(was[i], was[j]) && 0 <= p < |fires| && 0 <= q < |fires|
                        && fires[p] == Expiry(was[i], pos, viaFireAll) && fires[q] == Expiry(was[j], pos, viaFireAll)
      ensures p < q
    {
      ServedInOrder(fires, was[i], was[j], pos, viaFireAll, p, q);
    }
  }

  lemma {:induction false} LastAtIsLast(fires: seq<Fire>, i: nat)
    requires i < |fires| && forall j, k :: 0 <= j < k < |fires| ==> Precedes(fires[j], fires[k])
    ensures fires[i].at <= LastAt(fires, fires[i].timer)
  {
    var n := |fires| - 1;
    assert i < n ==> Precedes(fires[i], fires[n]);
    if fires[n].timer != fires[i].timer {
      LastAtIsLast(fires[..n], i);
    }
  }

  /** Only repeated timers expire again, and never before a whole interval has passed. */
  lemma PeriodsApart(fires: seq<Fire>, i: nat, j: nat)
    requires Chained(fires) && i < j < |fires| && fires[i].timer == fires[j].timer
    ensures fires[i].timer.repeated && fires[i].at + fires[i].timer.interval <= fires[j].at
  {
    var before := fires[..j];
    assert before[i] == fires[i];
    LastAtIsLast(before, i);
    assert Timely(fires[j]) && Continues(before, fires[j].timer, fires[j].start);
  }

  function Expiries(fires: seq<Fire>, t: Timer): nat {
    if fires == [] then 0
    else Expiries(fires[..|fires| - 1], t) + (if fires[|fires| - 1].timer == t then 1 else 0)
  }

  /** A timer no catch-up jump interfered with keeps to its schedule for ever: no drift. */
  lemma {:induction false} NoDrift(fires: seq<Fire>, t: Timer)
    requires Chained(fires)
    requires forall k :: 0 <= k < |fires| && fires[k].timer == t ==> !fires[k].caughtUp
    ensures LastAt(fires, t) == t.born + t.interval * Expiries(fires, t)
  {
    hide Chained;
    if fires != [] {
      var init, last := fires[..|fires| - 1], fires[|fires| - 1];
      ChainedPrefix(fires, |fires| - 1);
      assert forall k :: 0 <= k < |init| ==> init[k] == fires[k];
      NoDrift(init, t);
      if last.timer == t {
        OnTime(fires, |fires| - 1);
        Distribute(t.interval, Expiries(init, t));
      }
    }
  }

  lemma OnTime(fires: seq<Fire>, k: nat)
    requires Chained(fires) && k < |fires| && !fires[k].caughtUp
    ensures fires[k].at == LastAt(fires[..k], fires[k].timer) + fires[k].timer.interval
  {
    hide LastAt;
    assert Timely(fires[k]) && Continues(fires[..k], fires[k].timer, fires[k].start);
  }

  lemma Distribute(interval: nat, n: nat)
    ensures interval * n + interval == interval * (n + 1)
  {
  }

  lemma ChainedPrefix(fires: seq<Fire>, k: nat)
    requires Chained(fires) && k <= |fires|
    ensures Chained(fires[..k])
  {
    forall i | 0 <= i < k
      ensures fires[..k][i] == fires[i] && fires[..k][..i] == fires[..i]
    {
    }
  }

  /** The history went on since tick `since`, without an expiry of a timer in `dead`. */
  ghost predicate Extends(was: seq<Fire>, now: seq<Fire>, dead: set<Timer>, since: nat) {
    was <= now && forall k :: |was| <= k < |now| ==> now[k].timer !in dead && since <= now[k].at
  }

  lemma ExtendsFurther(a: seq<Fire>, b: seq<Fire>, c: seq<Fire>, dead: set<Timer>, dead': set<Timer>,
                       since: nat, since': nat)
    requires Extends(a, b, dead, since) && Extends(b, c, dead', since') && dead <= dead' && since <= since'
    ensures Extends(a, c, dead, since)
  {
    assert forall k :: |a| <= k < |b| ==> c[k] == b[k];
  }

  // ---------------------------------------------------------------- being served

  /** No box leaves or changes; boxes of newly created timers are on the wheel. */
  ghost predicate Undisturbed(en: Entries, en': Entries) {
    && (forall id :: id in en ==> id in en' && en'[id] == en[id])
    && (forall id :: id in en' && id !in en ==> en'[id].place == Slot)
  }

  /** Every box that was not there before starts its first period at tick `pos`. */
  ghost predicate Newborn(en: Entries, en': Entries, pos: nat) {
    forall id :: id in en' && id !in en ==>
      en'[id] == NewPeriod(en'[id].timer, pos, en'[id].stamp) && en'[id].timer.interval >= 1
  }

  /** A jump after a poll steps over new boxes of short timers only. */
  lemma NewbornsAreSkippable(en: Entries, en': Entries, pos: nat, skip: nat)
    requires Undisturbed(en, en') && Newborn(en, en', pos) && skip < MAX_EPOL_WAIT
    requires forall id :: id in en ==> pos + skip <= en[id].due
    ensures Skippable(en', pos + skip)
    ensures forall id :: id in en' ==> (en'[id].due < pos + skip <==> id !in en && en'[id].timer.interval < skip)
  {
  }

  /** What a visit at tick `pos` owes to a live timer: with no distance left it fires, and a
      repeated timer starts over; otherwise its box is re-filed for the rest of the way. */
  ghost predicate Served(e: Entry, id: nat, en: Entries, fires: seq<Fire>, pos: nat, viaFireAll: bool)
    requires e.due <= pos
  {
    if e.residual == 0
    then Expiry(e, pos, viaFireAll) in fires && LastAt(fires, e.timer) == pos
         && (e.timer.repeated ==> id in en && en[id] == NewPeriod(e.timer, pos, en[id].stamp))
    else id in en && en[id] == Refiled(e, pos, viaFireAll, en[id].stamp)
  }

  ghost predicate Awaits(e: Entry, id: nat, en: Entries) {
    id in en && en[id] == e.(place := en[id].place)
  }

  /** Every box due before `hi` is still untouched or has been served, unless its timer is dead. */
  ghost predicate InProgress(was: Entries, hi: nat, deleted: set<Timer>,
                             en: Entries, fires: seq<Fire>, pos: nat, viaFireAll: bool)
    requires hi <= pos + 1
  {
    forall id :: id in was && was[id].due < hi && was[id].timer !in deleted ==>
      Awaits(was[id], id, en) || Served(was[id], id, en, fires, pos, viaFireAll)
  }

  ghost predicate AllServed(was: Entries, hi: nat, deleted: set<Timer>,
                            en: Entries, fires: seq<Fire>, pos: nat, viaFireAll: bool)
    requires hi <= pos + 1
  {
    forall id :: id in was && was[id].due < hi && was[id].timer !in deleted ==>
      Served(was[id], id, en, fires, pos, viaFireAll)
  }

  /** Gathering moves boxes about and drops those of dead timers; it serves nobody. */
  ghost predicate AllAwait(was: Entries, deleted: set<Timer>, en: Entries) {
    forall id :: id in was && was[id].timer !in deleted ==> Awaits(was[id], id, en)
  }

  lemma WorkStarts(was: Entries, hi: nat, deleted: set<Timer>,
                   en: Entries, fires: seq<Fire>, pos: nat, viaFireAll: bool)
    requires hi <= pos + 1 && AllAwait(was, deleted, en)
    ensures InProgress(was, hi, deleted, en, fires, pos, viaFireAll)
  {
  }

  lemma NothingMoved(en: Entries, deleted: set<Timer>)
    ensures AllAwait(en, deleted, en)
  {
  }

  lemma AwaitFurther(was: Entries, deleted: set<Timer>, en: Entries, en': Entries)
    requires AllAwait(was, deleted, en) && AllAwait(en, deleted, en')
    ensures AllAwait(was, deleted, en')
  {
  }

  /** Work is complete once no box in circulation is due before `hi`. */
  lemma WorkDone(was: Entries, hi: nat, deleted: set<Timer>,
                 en: Entries, fires: seq<Fire>, pos: nat, viaFireAll: bool)
    requires hi <= pos + 1 && InProgress(was, hi, deleted, en, fires, pos, viaFireAll)
    requires forall id :: id in en ==> hi <= en[id].due
    ensures AllServed(was, hi, deleted, en, fires, pos, viaFireAll)
  {
  }

  /** At most one expiry was added, at tick `pos`. */
  ghost predicate OneMore(was: seq<Fire>, now: seq<Fire>, pos: nat) {
    now == was || (now != [] && now == was + [now[|now| - 1]] && now[|now| - 1].at == pos)
  }

  /** A box served for good at tick `pos` is not overdue, so it is not the one visited next. */
  lemma ServedStays(e: Entry, i: nat, id: nat, en: Entries, en': Entries,
                    fires: seq<Fire>, fires': seq<Fire>, pos: nat, viaFireAll: bool)
    requires e.due <= pos && e.timer.interval >= 1 && Served(e, i, en, fires, pos, viaFireAll)
    requires id in en && en[id].due <= pos
    requires Undisturbed(en - {id}, en') && OneMore(fires, fires', pos)
    ensures Served(e, i, en', fires', pos, viaFireAll)
  {
    hide LastAt, HasFired;
    if fires' != fires {
      FiresSnoc(fires, fires'[|fires'| - 1], e.timer);
      assert forall f :: f in fires ==> f in fires';
    }
    if i != id {
      assert i in en ==> i in en - {id};
    }
  }

  lemma AwaitedIsServed(e: Entry, id: nat, en: Entries, en': Entries, fires: seq<Fire>, pos: nat, viaFireAll: bool)
    requires Awaits(e, id, en) && e.due <= pos && Served(en[id], id, en', fires, pos, viaFireAll)
    ensures Served(e, id, en', fires, pos, viaFireAll)
  {
  }

  /** Visiting one box neither disturbs those that wait nor undoes what was done for the others. */
  lemma ProgressOne(was: Entries, hi: nat, deleted: set<Timer>, deleted': set<Timer>, id: nat,
                    en: Entries, en': Entries, fires: seq<Fire>, fires': seq<Fire>, pos: nat, viaFireAll: bool)
    requires hi <= pos + 1 && deleted <= deleted'
    requires forall i :: i in was ==> was[i].timer.interval >= 1
    requires InProgress(was, hi, deleted, en, fires, pos, viaFireAll)
    requires id in en && en[id].due <= pos
    requires Undisturbed(en - {id}, en') && OneMore(fires, fires', pos)
    requires en[id].timer !in deleted' ==> Served(en[id], id, en', fires', pos, viaFireAll)
    ensures InProgress(was, hi, deleted', en', fires', pos, viaFireAll)
  {
    hide Served, OneMore;
    forall i | i in was && was[i].due < hi && was[i].timer !in deleted'
      ensures Awaits(was[i], i, en') || Served(was[i], i, en', fires', pos, viaFireAll)
    {
      if !Awaits(was[i], i, en) {
        ServedStays(was[i], i, id, en, en', fires, fires', pos, viaFireAll);
      } else if i == id {
        AwaitedIsServed(was[i], id, en, en', fires', pos, viaFireAll);
      } else {
        assert i in en - {id};
      }
    }
  }

  /** A box still on the wheel is overdue by a lap for each visit it has had, at most, and has
      had fewer visits than its interval takes. */
  lemma NotOverdue(e: Entry, pos: nat)
    requires Track(e) && pos <= e.due
    ensures pos <= e.start + e.timer.interval + LAP * e.visits + Penalty(e.missed)
    ensures e.visits < Laps(e.timer.interval)
  {
  }

  // ------------------------------------------------------- timers, table, boxes

  /** An ID on a box is dead, or belongs to the box's own timer. */
  ghost predicate Linked(table: seq<Timer?>, en: Entries, timers: set<Timer>, deleted: set<Timer>)
    reads timers
  {
    forall id {:trigger en[id]} :: id in en ==>
      && id < |table|
      && en[id].timer in timers
      && en[id].timer.interval >= 1
      && (table[id] != null ==>
            && table[id] == en[id].timer
            && en[id].timer !in deleted
            && en[id].timer.id == id
            && (en[id].place != Hand ==> en[id].timer.nextFire == en[id].residual))
  }

  /** A timer that was not deleted either gave its ID back or still has its own box. */
  ghost predicate Owned(table: seq<Timer?>, en: Entries, timers: set<Timer>, deleted: set<Timer>)
    reads timers
  {
    forall t {:trigger t in timers} :: t in timers && t !in deleted && t.id != 0 ==>
      && t.id in en && t.id < |table|
      && en[t.id].timer == t && table[t.id] == t
  }

  /** `deaths` remembers how many expiries there had been when a timer was deleted: it has had none since. */
  ghost predicate Silenced(fires: seq<Fire>, deleted: set<Timer>, deaths: map<Timer, nat>) {
    && deaths.Keys == deleted
    && forall t, k {:trigger deaths[t], fires[k]} :: t in deaths && deaths[t] <= k < |fires| ==> fires[k].timer != t
  }

  lemma StillSilenced(fires: seq<Fire>, f: Fire, deleted: set<Timer>, deaths: map<Timer, nat>)
    requires Silenced(fires, deleted, deaths) && f.timer !in deleted
    ensures Silenced(fires + [f], deleted, deaths)
  {
    var fires' := fires + [f];
    forall t, k | t in deaths && deaths[t] <= k < |fires'|
      ensures fires'[k].timer != t
    {
      assert t in deleted;
      if k < |fires| {
        assert fires'[k] == fires[k];
      }
    }
  }

  lemma SilencedNow(fires: seq<Fire>, deleted: set<Timer>, deaths: map<Timer, nat>, t: Timer)
    requires Silenced(fires, deleted, deaths)
    ensures Silenced(fires, deleted + {t}, deaths[t := |fires|])
  {
  }

  /** The box of a timer that was not deleted is alive. */
  lemma LiveBox(table: seq<Timer?>, en: Entries, timers: set<Timer>, deleted: set<Timer>,
                fires: seq<Fire>, pos: nat, id: nat)
    requires Linked(table, en, timers, deleted) && Owned(table, en, timers, deleted)
    requires Spent(fires, timers, deleted) && History(fires, en, pos)
    requires id in en && en[id].place != Hand && en[id].timer !in deleted
    ensures id < |table| && table[id] == en[id].timer
  {
    var t := en[id].timer;
    assert t in timers && Continues(fires, t, en[id].start);
    assert t.id != 0;
  }

  /** A timer is deleted: its box, if any, is dead from now on. */
  lemma LinksDeleted(table: seq<Timer?>, en: Entries, timers: set<Timer>, deleted: set<Timer>,
                     fires: seq<Fire>, t: Timer)
    requires Linked(table, en, timers, deleted) && Owned(table, en, timers, deleted) && Spent(fires, timers, deleted)
    requires t in timers && t !in deleted && |table| >= 1
    ensures t.id < |table| && (t.id != 0 ==> table[t.id] == t)
    ensures Linked(table[t.id := null], en, timers, deleted + {t})
    ensures Owned(table[t.id := null], en, timers, deleted + {t})
    ensures Spent(fires, timers, deleted + {t})
  {
  }

  /** The box in the hand is filed again. */
  lemma LinksFiled(table: seq<Timer?>, en: Entries, timers: set<Timer>, deleted: set<Timer>, id: nat, e: Entry)
    requires Linked(table, en, timers, deleted) && Owned(table, en, timers, deleted)
    requires id in en && e.timer == en[id].timer && e.timer.nextFire == e.residual
    ensures Linked(table, en[id := e], timers, deleted) && Owned(table, en[id := e], timers, deleted)
  {
  }

  /** Growing the table with dead entries changes nothing for the boxes in circulation. */
  lemma LinksGrow(table: seq<Timer?>, more: seq<Timer?>, en: Entries, timers: set<Timer>, deleted: set<Timer>)
    requires Linked(table, en, timers, deleted) && Owned(table, en, timers, deleted) && table <= more
    ensures Linked(more, en, timers, deleted) && Owned(more, en, timers, deleted)
  {
  }

  /** A box is taken into the hand. */
  lemma LinksTaken(table: seq<Timer?>, en: Entries, timers: set<Timer>, deleted: set<Timer>, id: nat)
    requires Linked(table, en, timers, deleted) && Owned(table, en, timers, deleted)
    requires id in en && en[id].place != Hand
    ensures Linked(table, Moved(en, id, Hand), timers, deleted) && Owned(table, Moved(en, id, Hand), timers, deleted)
    ensures en[id].timer in timers && id < |table|
    ensures table[id] != null ==> en[id].timer.nextFire == en[id].residual
  {
  }

  /** Only timers that were created fire; one that gave its ID back is a one-shot that has fired. */
  ghost predicate Spent(fires: seq<Fire>, timers: set<Timer>, deleted: set<Timer>)
    reads timers
  {
    && (forall k :: 0 <= k < |fires| ==> fires[k].timer in timers)
    && forall t {:trigger t in timers} :: t in timers && t !in deleted && t.id == 0 ==>
      !t.repeated && HasFired(fires, t)
  }

  /** A new timer under an ID no box carries. */
  lemma LinksEnter(table: seq<Timer?>, en: Entries, timers: set<Timer>, deleted: set<Timer>, fires: seq<Fire>,
                   id: nat, t: Timer, e: Entry)
    requires Linked(table, en, timers, deleted) && Owned(table, en, timers, deleted) && Spent(fires, timers, deleted)
    requires 1 <= id < |table| && id !in en && t !in timers && t !in deleted
    requires t.id == id && t.interval >= 1 && e.timer == t && e.place == Slot && t.nextFire == e.residual
    ensures Linked(table[id := t], en[id := e], timers + {t}, deleted)
    ensures Owned(table[id := t], en[id := e], timers + {t}, deleted)
    ensures Spent(fires, timers + {t}, deleted)
    ensures Continues(fires, t, t.born) && forall i :: i in en ==> en[i].timer != t
  {
    NeverFired(fires, t);
  }

  // ------------------------------------------------------------ where boxes are

  ghost predicate IsIn(b: Box, en: Entries, p: Place) {
    b.id in en && en[b.id].place == p && en[b.id].timer == b.timer
  }

  ghost predicate DistinctIds(bs: seq<Box>) {
    forall i, j :: 0 <= i < j < |bs| ==> bs[i].id != bs[j].id
  }

  ghost predicate AllIn(bs: seq<Box>, en: Entries) {
    forall k :: 0 <= k < |bs| ==> bs[k].id in en
  }

  /** First filed, first in the list. */
  ghost predicate InFilingOrder(bs: seq<Box>, en: Entries)
    requires AllIn(bs, en)
  {
    forall i, j :: 0 <= i < j < |bs| ==> en[bs[i].id].stamp < en[bs[j].id].stamp
  }

  ghost predicate InServingOrder(bs: seq<Box>, en: Entries)
    requires AllIn(bs, en)
  {
    forall i, j :: 0 <= i < j < |bs| ==> Before(en[bs[i].id], en[bs[j].id])
  }

  /** `bs` lists exactly the gathered boxes, in the order of their due ticks and their filing. */
  ghost predicate ListOk(bs: seq<Box>, en: Entries) {
    && DistinctIds(bs)
    && AllIn(bs, en) && InServingOrder(bs, en)
    && (forall k :: 0 <= k < |bs| ==> IsIn(bs[k], en, Gathered))
    && (forall id :: id in en && en[id].place == Gathered ==> Box(id, en[id].timer) in bs)
  }

  /** The boxes of slot `s` are exactly those due at a tick that maps to `s`, as they were filed. */
  ghost predicate SlotOk(bs: seq<Box>, s: nat, en: Entries) {
    && DistinctIds(bs)
    && AllIn(bs, en) && InFilingOrder(bs, en)
    && (forall k :: 0 <= k < |bs| ==> IsIn(bs[k], en, Slot) && en[bs[k].id].due % SLOTS == s)
    && (forall id :: id in en && en[id].place == Slot && en[id].due % SLOTS == s ==> Box(id, en[id].timer) in bs)
  }

  ghost predicate SlotsOk(ss: seq<seq<Box>>, en: Entries) {
    |ss| == SLOTS && forall s {:trigger ss[s]} :: 0 <= s < SLOTS ==> SlotOk(ss[s], s, en)
  }

  /** Free IDs are exactly the IDs no box carries, each once. */
  ghost predicate FreeOk(free: seq<nat>, max: nat, used: set<nat>) {
    && (forall i, j :: 0 <= i < j < |free| ==> free[i] != free[j])
    && (forall id :: id in used ==> 1 <= id < max)
    && (forall id :: id in free <==> 1 <= id < max && id !in used)
  }

  /** Boxes on the wheel are due between `lo` and `hi`; gathered ones are overdue
      by at most a lap. */
  ghost predicate WindowOk(lo: nat, hi: nat, en: Entries) {
    forall id :: id in en ==>
      && (en[id].place == Slot ==> lo <= en[id].due <= hi)
      && (en[id].place == Gathered ==> en[id].due <= lo <= en[id].due + LAP)
  }

  ghost predicate StampsOk(en: Entries, filings: nat) {
    forall id :: id in en ==> en[id].stamp < filings
  }

  /** Gathered boxes come before all that are still on the wheel. */
  ghost predicate GatheredFirst(en: Entries) {
    forall i, j :: i in en && j in en && en[i].place == Gathered && en[j].place == Slot ==> Before(en[i], en[j])
  }

  ghost predicate TracksOk(en: Entries) {
    forall id :: id in en && en[id].place != Hand ==> Track(en[id])
  }

  lemma SameTick(a: nat, b: nat)
    requires a <= b <= a + LAP && a % SLOTS == b % SLOTS
    ensures a == b
  {
  }

  /** Only a distance of zero leads back into the slot being emptied. */
  lemma AheadIsElsewhere(pos: nat, n: nat)
    ensures (pos + Hop(n)) % SLOTS != pos % SLOTS <==> n > 0
  {
    if (pos + Hop(n)) % SLOTS == pos % SLOTS {
      SameTick(pos, pos + Hop(n));
    }
  }

  predicate SameSlot(t: nat, u: nat) {
    t % SLOTS == u % SLOTS
  }

  /** The slot of `due` is among those of the next `skip` ticks. */
  ghost predicate MetWithin(pos: nat, skip: nat, due: nat) {
    exists t: nat :: pos <= t < pos + skip && SameSlot(t, due)
  }

  lemma MetWithinIff(pos: nat, skip: nat, due: nat)
    requires pos <= due <= pos + LAP && skip <= LAP
    ensures MetWithin(pos, skip, due) <==> due < pos + skip
  {
    if MetWithin(pos, skip, due) {
      var t: nat :| pos <= t < pos + skip && SameSlot(t, due);
      if t <= due {
        SameTick(t, due);
      } else {
        SameTick(due, t);
      }
    }
    if due < pos + skip {
      assert SameSlot(due, due);
    }
  }

  lemma NextMeeting(from: nat, due: nat, t: nat)
    requires due < from <= due + SLOTS && from <= t && SameSlot(t, due)
    ensures due + SLOTS <= t
  {
    if t < due + SLOTS {
      SameTick(due, t);
    }
  }

  /** A timer created while the current tick is `pos` is stepped over by a jump of `skip` ticks
      if and only if its interval is shorter than the jump; it is then met a whole turn late. */
  lemma SteppedOverIff(pos: nat, interval: nat, skip: nat)
    requires interval >= 1 && skip <= LAP
    ensures var due := pos + Hop(interval);
            && (MetWithin(pos, skip, due) <==> interval < skip)
            && (interval < skip ==>
                  SameSlot(due + SLOTS, due)
                  && forall t :: pos + skip <= t && SameSlot(t, due) ==> due + SLOTS <= t)
  {
    var due := pos + Hop(interval);
    MetWithinIff(pos, skip, due);
    if interval < skip {
      assert due + SLOTS == due + 1 * SLOTS;
      forall t | pos + skip <= t && SameSlot(t, due)
        ensures due + SLOTS <= t
      {
        NextMeeting(pos + skip, due, t);
      }
    }
  }

  // ----------------------------------------------------------------- box moves

  /** Filing a box that is not on the wheel. */
  lemma SlotsAfterPut(ss: seq<seq<Box>>, en: Entries, id: nat, e: Entry)
    requires SlotsOk(ss, en) && e.place == Slot && StampsOk(en, e.stamp)
    requires id in en ==> en[id].place != Slot
    ensures var s := e.due % SLOTS;
            SlotsOk(ss[s := ss[s] + [Box(id, e.timer)]], en[id := e])
  {
    var s, en' := e.due % SLOTS, en[id := e];
    var ss' := ss[s := ss[s] + [Box(id, e.timer)]];
    forall r | 0 <= r < SLOTS
      ensures SlotOk(ss'[r], r, en')
    {
      SlotAfterPut(ss[r], r, en, id, e);
    }
  }

  lemma SlotAfterPut(bs: seq<Box>, s: nat, en: Entries, id: nat, e: Entry)
    requires SlotOk(bs, s, en) && e.place == Slot && StampsOk(en, e.stamp)
    requires id in en ==> en[id].place != Slot
    ensures SlotOk(if s == e.due % SLOTS then bs + [Box(id, e.timer)] else bs, s, en[id := e])
  {
    forall k | 0 <= k < |bs|
      ensures bs[k].id != id
    {
      assert IsIn(bs[k], en, Slot);
    }
    OrderAfterPut(bs, en, id, e);
    hide InFilingOrder, AllIn;
    if s == e.due % SLOTS {
      SlotGrows(bs, s, en, id, e);
    }
  }

  lemma SlotGrows(bs: seq<Box>, s: nat, en: Entries, id: nat, e: Entry)
    requires SlotOk(bs, s, en) && e.place == Slot && s == e.due % SLOTS
    requires forall k :: 0 <= k < |bs| ==> bs[k].id != id
    requires AllIn(bs + [Box(id, e.timer)], en[id := e]) && InFilingOrder(bs + [Box(id, e.timer)], en[id := e])
    ensures SlotOk(bs + [Box(id, e.timer)], s, en[id := e])
  {
    hide InFilingOrder, AllIn;
    var bs' := bs + [Box(id, e.timer)];
    assert bs'[|bs|] == Box(id, e.timer);
    assert forall b :: b in bs ==> b in bs';
  }

  lemma OrderAfterPut(bs: seq<Box>, en: Entries, id: nat, e: Entry)
    requires AllIn(bs, en) && InFilingOrder(bs, en) && StampsOk(en, e.stamp)
    requires forall k :: 0 <= k < |bs| ==> bs[k].id != id
    ensures AllIn(bs + [Box(id, e.timer)], en[id := e]) && InFilingOrder(bs + [Box(id, e.timer)], en[id := e])
    ensures AllIn(bs, en[id := e]) && InFilingOrder(bs, en[id := e])
  {
  }

  /** Taking the first box out of a slot, to wherever it goes next. */
  lemma SlotsAfterTake(ss: seq<seq<Box>>, en: Entries, s: nat, en': Entries)
    requires SlotsOk(ss, en) && s < SLOTS && ss[s] != []
    requires Elsewhere(en, en', ss[s][0].id)
    ensures SlotsOk(ss[s := ss[s][1..]], en')
  {
    var ss' := ss[s := ss[s][1..]];
    var b := ss[s][0];
    assert SlotOk(ss[s], s, en);
    assert IsIn(b, en, Slot) && en[b.id].due % SLOTS == s;
    forall r | 0 <= r < SLOTS
      ensures SlotOk(ss'[r], r, en')
    {
      if r == s {
        SlotAfterTake(ss[s], s, en, en');
      } else {
        SlotWithout(ss[r], r, en, en', b.id);
      }
    }
  }

  /** `en'` is `en` except that `id` has left the wheel. */
  ghost predicate Elsewhere(en: Entries, en': Entries, id: nat) {
    && (forall i :: i != id ==> (i in en <==> i in en'))
    && (forall i :: i in en && i != id ==> i in en' && en'[i] == en[i])
    && (id in en' ==> en'[id].place != Slot)
  }

  lemma SlotAfterTake(bs: seq<Box>, s: nat, en: Entries, en': Entries)
    requires SlotOk(bs, s, en) && bs != []
    requires Elsewhere(en, en', bs[0].id)
    ensures SlotOk(bs[1..], s, en')
  {
    var id, rest := bs[0].id, bs[1..];
    forall k | 0 <= k < |rest|
      ensures IsIn(rest[k], en', Slot) && en'[rest[k].id].due % SLOTS == s
    {
      assert rest[k] == bs[k + 1] && IsIn(bs[k + 1], en, Slot);
    }
    forall i | i in en' && en'[i].place == Slot && en'[i].due % SLOTS == s
      ensures Box(i, en'[i].timer) in rest
    {
      var b := Box(i, en[i].timer);
      assert b in bs;
      var k :| 0 <= k < |bs| && bs[k] == b;
      assert rest[k - 1] == b;
    }
  }

  lemma SlotWithout(bs: seq<Box>, s: nat, en: Entries, en': Entries, id: nat)
    requires SlotOk(bs, s, en) && Elsewhere(en, en', id)
    requires id in en && (en[id].place != Slot || en[id].due % SLOTS != s)
    ensures SlotOk(bs, s, en')
  {
    forall k | 0 <= k < |bs|
      ensures IsIn(bs[k], en', Slot) && en'[bs[k].id].due % SLOTS == s
    {
      assert IsIn(bs[k], en, Slot);
    }
  }

  /** Entries that are not on the wheel, before or after, do not concern the slots. */
  lemma SlotsIgnore(ss: seq<seq<Box>>, en: Entries, en': Entries, id: nat)
    requires SlotsOk(ss, en) && Elsewhere(en, en', id)
    requires id in en ==> en[id].place != Slot
    ensures SlotsOk(ss, en')
  {
    forall s | 0 <= s < SLOTS
      ensures SlotOk(ss[s], s, en')
    {
      forall k | 0 <= k < |ss[s]|
        ensures IsIn(ss[s][k], en', Slot) && en'[ss[s][k].id].due % SLOTS == s
      {
        assert IsIn(ss[s][k], en, Slot);
      }
    }
  }

  /** The gathered list under a change to an entry that was and is not gathered. */
  lemma ListIgnores(bs: seq<Box>, en: Entries, en': Entries, id: nat)
    requires ListOk(bs, en)
    requires forall i :: i != id ==> (i in en <==> i in en')
    requires forall i :: i in en && i != id ==> i in en' && en'[i] == en[i]
    requires id in en ==> en[id].place != Gathered
    requires id in en' ==> en'[id].place != Gathered
    ensures ListOk(bs, en')
  {
    forall k | 0 <= k < |bs|
      ensures IsIn(bs[k], en', Gathered)
    {
      assert IsIn(bs[k], en, Gathered);
    }
  }

  lemma ListAfterGather(bs: seq<Box>, en: Entries, id: nat, e: Entry)
    requires ListOk(bs, en) && e.place == Gathered
    requires id in en && en[id].place != Gathered
    requires forall i :: i in en && en[i].place == Gathered ==> Before(en[i], e)
    ensures ListOk(bs + [Box(id, e.timer)], en[id := e])
  {
    var b, en' := Box(id, e.timer), en[id := e];
    var bs' := bs + [b];
    assert bs'[|bs|] == b;
    forall k | 0 <= k < |bs|
      ensures IsIn(bs[k], en', Gathered) && bs[k].id != id
    {
      assert IsIn(bs[k], en, Gathered);
    }
    assert forall c :: c in bs ==> c in bs';
  }

  lemma ListAfterTake(bs: seq<Box>, en: Entries, en': Entries)
    requires ListOk(bs, en) && bs != []
    requires forall i :: i != bs[0].id ==> (i in en <==> i in en')
    requires forall i :: i in en && i != bs[0].id ==> i in en' && en'[i] == en[i]
    requires bs[0].id in en' ==> en'[bs[0].id].place != Gathered
    ensures ListOk(bs[1..], en')
  {
    var rest := bs[1..];
    forall k | 0 <= k < |rest|
      ensures IsIn(rest[k], en', Gathered)
    {
      assert rest[k] == bs[k + 1] && IsIn(bs[k + 1], en, Gathered);
    }
    forall i | i in en' && en'[i].place == Gathered
      ensures Box(i, en'[i].timer) in rest
    {
      var b := Box(i, en[i].timer);
      assert b in bs;
      var k :| 0 <= k < |bs| && bs[k] == b;
      assert rest[k - 1] == b;
    }
  }

  // ------------------------------------------------------------------ free IDs

  lemma FreeAfterPush(free: seq<nat>, max: nat, used: set<nat>, id: nat)
    requires FreeOk(free, max, used) && id in used
    ensures FreeOk(free + [id], max, used - {id})
  {
    var free' := free + [id];
    assert free'[|free|] == id;
    assert forall i :: i in free' <==> i in free || i == id;
    assert forall k :: 0 <= k < |free| ==> free[k] in free;
  }

  lemma FreeAfterPop(free: seq<nat>, max: nat, used: set<nat>)
    requires FreeOk(free, max, used) && free != []
    ensures var id := free[|free| - 1];
            1 <= id < max && id !in used && FreeOk(free[..|free| - 1], max, used + {id})
  {
    var n := |free| - 1;
    var id, rest := free[n], free[..n];
    assert id in free;
    assert forall k :: 0 <= k < n ==> rest[k] == free[k] && rest[k] != id;
    forall i: nat
      ensures i in rest <==> i in free && i != id
    {
      if i in free && i != id {
        var k :| 0 <= k < |free| && free[k] == i;
        assert rest[k] == i;
      }
    }
  }

  lemma FreeAfterGrow(max: nat, used: set<nat>, free: seq<nat>)
    requires FreeOk([], max, used) && max >= 1
    requires |free| == TIMERS_STEP && forall k :: 0 <= k < TIMERS_STEP ==> free[k] == max + k
    ensures FreeOk(free, max + TIMERS_STEP, used)
  {
    forall id: nat
      ensures id in free <==> 1 <= id < max + TIMERS_STEP && id !in used
    {
      if max <= id < max + TIMERS_STEP {
        assert free[id - max] == id;
      } else if 1 <= id < max {
        assert id !in [];
      }
    }
  }

  // ------------------------------------------------------- the wheel as a whole

  datatype View = View(lo: nat, hi: nat, slots: seq<seq<Box>>, gathered: seq<Box>,
                       free: seq<nat>, max: nat, entries: Entries, filings: nat)

  ghost predicate WheelOk(v: View) {
    && v.hi <= v.lo + LAP
    && SlotsOk(v.slots, v.entries)
    && ListOk(v.gathered, v.entries)
    && FreeOk(v.free, v.max, v.entries.Keys)
    && WindowOk(v.lo, v.hi, v.entries)
    && TracksOk(v.entries)
    && StampsOk(v.entries, v.filings)
    && GatheredFirst(v.entries)
  }

  ghost predicate OnlyHand(en: Entries, id: nat) {
    forall i :: i in en && i != id ==> en[i].place != Hand
  }

  ghost predicate HandsFree(en: Entries) {
    forall i :: i in en ==> en[i].place != Hand
  }

  function PutIn(ss: seq<seq<Box>>, s: nat, b: Box): seq<seq<Box>>
    requires s < |ss|
  {
    ss[s := ss[s] + [b]]
  }

  /** The boxes of the current slot stand in the order in which they are to be served. */
  lemma SlotInServingOrder(v: View)
    requires WheelOk(v)
    ensures var bs := v.slots[v.lo % SLOTS];
            AllIn(bs, v.entries) && InServingOrder(bs, v.entries)
  {
    var s, en := v.lo % SLOTS, v.entries;
    var bs := v.slots[s];
    assert SlotOk(bs, s, en);
    forall k | 0 <= k < |bs|
      ensures en[bs[k].id].due == v.lo
    {
      assert IsIn(bs[k], en, Slot);
      SameTick(v.lo, en[bs[k].id].due);
    }
  }

  lemma WheelFree(v: View)
    requires WheelOk(v)
    ensures FreeOk(v.free, v.max, v.entries.Keys)
  {
  }

  /** A box in the hand, or a new one, is filed. */
  lemma AfterPut(v: View, free: seq<nat>, max: nat, id: nat, e: Entry)
    requires WheelOk(v) && e.place == Slot && v.lo <= e.due <= v.hi && Track(e)
    requires id in v.entries ==> v.entries[id].place == Hand
    requires FreeOk(free, max, v.entries.Keys + {id}) && e.stamp == v.filings
    ensures WheelOk(v.(slots := PutIn(v.slots, e.due % SLOTS, Box(id, e.timer)), free := free, max := max,
                       entries := v.entries[id := e], filings := v.filings + 1))
  {
    var en := v.entries[id := e];
    SlotsAfterPut(v.slots, v.entries, id, e);
    ListIgnores(v.gathered, v.entries, en, id);
    assert en.Keys == v.entries.Keys + {id};
  }

  /** The box in the hand leaves circulation. */
  lemma AfterReclaim(v: View, id: nat)
    requires WheelOk(v) && id in v.entries && v.entries[id].place == Hand
    ensures WheelOk(v.(free := v.free + [id], entries := v.entries - {id}))
  {
    var en := v.entries - {id};
    FreeAfterPush(v.free, v.max, v.entries.Keys, id);
    SlotsIgnore(v.slots, v.entries, en, id);
    ListIgnores(v.gathered, v.entries, en, id);
    assert en.Keys == v.entries.Keys - {id};
  }

  ghost function Moved(en: Entries, id: nat, p: Place): Entries
    requires id in en
  {
    en[id := en[id].(place := p)]
  }

  /** The box comes after the gathered ones and before those on the wheel. */
  ghost predicate Between(en: Entries, id: nat) {
    id in en && forall i :: i in en && i != id ==>
      && (en[i].place == Slot ==> Before(en[id], en[i]))
      && (en[i].place == Gathered ==> Before(en[i], en[id]))
  }

  lemma NowForemost(was: Entries, en: Entries, id: nat)
    requires id in was && en == Moved(was, id, Hand) && Between(en, id)
    requires forall i :: i in was ==> was[i].place == Slot
    ensures Foremost(en, id)
  {
  }

  lemma TakenIsNext(v: View)
    requires WheelOk(v) && v.slots[v.lo % SLOTS] != []
    ensures Between(v.entries, v.slots[v.lo % SLOTS][0].id)
  {
    var s, en := v.lo % SLOTS, v.entries;
    var bs := v.slots[s];
    assert SlotOk(bs, s, en) && IsIn(bs[0], en, Slot);
    SameTick(v.lo, en[bs[0].id].due);
    forall i | i in en && i != bs[0].id && en[i].place == Slot
      ensures Before(en[bs[0].id], en[i])
    {
      if en[i].due == v.lo {
        var k :| 0 <= k < |bs| && bs[k] == Box(i, en[i].timer);
        assert en[bs[0].id].stamp < en[bs[k].id].stamp;
      }
    }
  }

  /** The first box of the current slot is taken into the hand; it is due right now. */
  lemma AfterTakeSlot(v: View)
    requires WheelOk(v) && v.slots[v.lo % SLOTS] != []
    ensures var s := v.lo % SLOTS;
            var b := v.slots[s][0];
            && IsIn(b, v.entries, Slot) && v.entries[b.id].due == v.lo && Track(v.entries[b.id])
            && Between(v.entries, b.id)
            && WheelOk(v.(slots := v.slots[s := v.slots[s][1..]], entries := Moved(v.entries, b.id, Hand)))
  {
    var s := v.lo % SLOTS;
    var b := v.slots[s][0];
    TakenIsNext(v);
    assert SlotOk(v.slots[s], s, v.entries) && IsIn(b, v.entries, Slot);
    SameTick(v.lo, v.entries[b.id].due);
    var en := Moved(v.entries, b.id, Hand);
    SlotsAfterTake(v.slots, v.entries, s, en);
    ListIgnores(v.gathered, v.entries, en, b.id);
    assert en.Keys == v.entries.Keys;
  }

  /** A box taken from a slot joins the gathered list. */
  lemma AfterGather(v: View, b: Box)
    requires WheelOk(v) && IsIn(b, v.entries, Hand) && Track(v.entries[b.id])
    requires v.entries[b.id].due <= v.lo <= v.entries[b.id].due + LAP && Between(v.entries, b.id)
    ensures WheelOk(v.(gathered := v.gathered + [b], entries := Moved(v.entries, b.id, Gathered)))
  {
    var en := Moved(v.entries, b.id, Gathered);
    SlotsIgnore(v.slots, v.entries, en, b.id);
    ListAfterGather(v.gathered, v.entries, b.id, en[b.id]);
    assert en.Keys == v.entries.Keys;
  }

  lemma GatheredIsNext(v: View)
    requires WheelOk(v) && v.gathered != [] && HandsFree(v.entries)
    ensures Foremost(v.entries, v.gathered[0].id)
  {
    var bs, en := v.gathered, v.entries;
    assert IsIn(bs[0], en, Gathered);
    forall i | i in en && i != bs[0].id
      ensures Before(en[bs[0].id], en[i])
    {
      if en[i].place == Gathered {
        var k :| 0 <= k < |bs| && bs[k] == Box(i, en[i].timer);
        assert Before(en[bs[0].id], en[bs[k].id]);
      }
    }
  }

  /** The first gathered box is taken into the hand. */
  lemma AfterTakeGathered(v: View)
    requires WheelOk(v) && v.gathered != [] && HandsFree(v.entries)
    ensures var b := v.gathered[0];
            && IsIn(b, v.entries, Gathered) && Track(v.entries[b.id])
            && v.entries[b.id].due <= v.lo <= v.entries[b.id].due + LAP
            && Foremost(v.entries, b.id)
            && WheelOk(v.(gathered := v.gathered[1..], entries := Moved(v.entries, b.id, Hand)))
  {
    var b := v.gathered[0];
    assert IsIn(b, v.entries, Gathered);
    GatheredIsNext(v);
    var en := Moved(v.entries, b.id, Hand);
    ToHand(v.lo, v.hi, v.entries, v.filings, b.id);
    assert Track(v.entries[b.id]) && v.entries[b.id].due <= v.lo <= v.entries[b.id].due + LAP;
    hide Foremost, SlotsOk, WindowOk, TracksOk, StampsOk, GatheredFirst, Track;
    SlotsIgnore(v.slots, v.entries, en, b.id);
    ListAfterTake(v.gathered, v.entries, en);
    assert en.Keys == v.entries.Keys;
  }

  lemma ToHand(lo: nat, hi: nat, en: Entries, filings: nat, id: nat)
    requires WindowOk(lo, hi, en) && TracksOk(en) && StampsOk(en, filings) && GatheredFirst(en) && id in en
    ensures var en' := Moved(en, id, Hand);
            WindowOk(lo, hi, en') && TracksOk(en') && StampsOk(en', filings) && GatheredFirst(en')
  {
  }

  /** Time moves past an empty slot: no box is stepped over. */
  lemma AfterTick(v: View, hi: nat)
    requires WheelOk(v) && v.slots[v.lo % SLOTS] == []
    requires v.hi <= hi <= v.lo + 1 + LAP && v.gathered == []
    ensures WheelOk(v.(lo := v.lo + 1, hi := hi))
  {
    NothingDueNow(v);
  }

  /** Every gathered box is due less than a lap before `hi`. */
  ghost predicate GatheredSince(hi: nat, en: Entries) {
    forall id :: id in en && en[id].place == Gathered ==> hi <= en[id].due + LAP
  }

  /** The same while boxes are being gathered, up to a lap after the first of them. */
  lemma AfterGatherTick(v: View)
    requires WheelOk(v) && v.slots[v.lo % SLOTS] == []
    requires GatheredSince(v.hi, v.entries) && v.lo < v.hi
    ensures WheelOk(v.(lo := v.lo + 1))
  {
    NothingDueNow(v);
  }

  lemma NothingGathered(en: Entries)
    requires ListOk([], en)
    ensures forall id :: id in en ==> en[id].place != Gathered
  {
  }

  lemma WidenWindow(v: View, hi: nat)
    requires WheelOk(v) && v.hi <= hi <= v.lo + LAP
    ensures WheelOk(v.(hi := hi))
  {
  }

  // ------------------------------------------------------- stepping over newborns

  /** A box the jump steps over: it is met in the same slot, one turn later. */
  ghost function Missed(e: Entry): Entry {
    e.(due := e.due + SLOTS, late := e.late + SLOTS, caughtUp := true, missed := true)
  }

  ghost function SteppedOver(en: Entries, pos: nat): Entries {
    map id | id in en :: if en[id].place == Slot && en[id].due == pos then Missed(en[id]) else en[id]
  }

  /** Boxes due before `end` are new and belong to short timers. */
  ghost predicate Skippable(en: Entries, end: nat) {
    forall id :: id in en && en[id].due < end ==> !en[id].missed && Short(en[id].timer)
  }

  /** The entries after a jump to tick `end`. */
  ghost function Jumped(en: Entries, end: nat): Entries {
    map id | id in en :: if en[id].due < end then Missed(en[id]) else en[id]
  }

  lemma JumpNone(en: Entries, pos: nat)
    requires forall id :: id in en ==> pos <= en[id].due
    ensures Jumped(en, pos) == en
  {
  }

  lemma JumpOne(en: Entries, start: nat, tick: nat, end: nat)
    requires start <= tick < end <= start + LAP && Skippable(en, end)
    requires forall id :: id in en ==> en[id].place == Slot && start <= en[id].due
    ensures Skippable(Jumped(en, tick), tick + 1)
    ensures SteppedOver(Jumped(en, tick), tick) == Jumped(en, tick + 1)
  {
  }

  /** A poll at tick `pos` and the jump after it left every box alone that was there before; of
      the new timers exactly those shorter than the jump are missed. */
  ghost predicate PolledTo(was: Entries, en: Entries, pos: nat, skip: nat) {
    && (forall id :: id in was ==> id in en && en[id] == was[id])
    && (forall id :: id in en && id !in was ==>
          var t := en[id].timer;
          var e := NewPeriod(t, pos, en[id].stamp);
          en[id] == if t.interval < skip then Missed(e) else e)
  }

  lemma AfterPoll(was: Entries, polled: Entries, pos: nat, skip: nat)
    requires Undisturbed(was, polled) && Newborn(was, polled, pos) && skip < MAX_EPOL_WAIT
    requires forall id :: id in was ==> pos + skip <= was[id].due
    ensures PolledTo(was, Jumped(polled, pos + skip), pos, skip)
  {
    NewbornsAreSkippable(was, polled, pos, skip);
  }

  lemma TurnLater(tick: nat)
    ensures (tick + SLOTS) % SLOTS == tick % SLOTS
  {
  }

  lemma SlotSteppedOver(bs: seq<Box>, s: nat, en: Entries, pos: nat)
    requires SlotOk(bs, s, en)
    ensures SlotOk(bs, s, SteppedOver(en, pos))
  {
    var en' := SteppedOver(en, pos);
    forall id | id in en
      ensures en'[id].due % SLOTS == en[id].due % SLOTS
    {
      TurnLater(en[id].due);
    }
    forall k | 0 <= k < |bs|
      ensures IsIn(bs[k], en', Slot) && en'[bs[k].id].due % SLOTS == s
    {
      assert IsIn(bs[k], en, Slot);
    }
  }

  lemma ListSteppedOver(bs: seq<Box>, en: Entries, pos: nat)
    requires ListOk(bs, en)
    ensures ListOk(bs, SteppedOver(en, pos))
  {
    var en' := SteppedOver(en, pos);
    forall k | 0 <= k < |bs|
      ensures IsIn(bs[k], en', Gathered)
    {
      assert IsIn(bs[k], en, Gathered);
    }
  }

  /** Time moves past a slot that is not empty: its boxes are due one turn later from now on. */
  lemma AfterStepOver(v: View, hi: nat)
    requires WheelOk(v) && v.gathered == [] && v.hi <= hi && hi == v.lo + 1 + LAP
    requires Skippable(v.entries, v.lo + 1)
    ensures WheelOk(v.(lo := v.lo + 1, hi := hi, entries := SteppedOver(v.entries, v.lo)))
  {
    var en := SteppedOver(v.entries, v.lo);
    forall s | 0 <= s < SLOTS
      ensures SlotOk(v.slots[s], s, en)
    {
      SlotSteppedOver(v.slots[s], s, v.entries, v.lo);
    }
    ListSteppedOver(v.gathered, v.entries, v.lo);
    assert en.Keys == v.entries.Keys;
    NothingGathered(v.entries);
  }

  lemma HistorySteppedOver(fires: seq<Fire>, en: Entries, pos: nat)
    requires History(fires, en, pos)
    ensures History(fires, SteppedOver(en, pos), pos)
  {
    hide Chained;
  }

  lemma LinksSteppedOver(table: seq<Timer?>, en: Entries, timers: set<Timer>, deleted: set<Timer>, pos: nat)
    requires Linked(table, en, timers, deleted) && Owned(table, en, timers, deleted)
    ensures Linked(table, SteppedOver(en, pos), timers, deleted) && Owned(table, SteppedOver(en, pos), timers, deleted)
  {
  }

  lemma NothingDueNow(v: View)
    requires WheelOk(v) && v.slots[v.lo % SLOTS] == []
    ensures forall id :: id in v.entries && v.entries[id].place == Slot ==> v.lo < v.entries[id].due
  {
    assert SlotOk(v.slots[v.lo % SLOTS], v.lo % SLOTS, v.entries);
    EmptySlot(v.lo % SLOTS, v.entries);
  }

  lemma EmptySlot(s: nat, en: Entries)
    requires SlotOk([], s, en)
    ensures forall id :: id in en && en[id].place == Slot ==> en[id].due % SLOTS != s
  {
  }
}
