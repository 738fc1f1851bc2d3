/** src/timer.c as it is written: timers that are changed in place, and a sweep that takes dead ones out of
    the list while it walks it. Each function is proved to take the step that `Timers.Step` describes. */
module TimerQueue {
  import opened Words
  import Timers

  /** `struct timer`. `past` carries the history that `Timers.Entry` records. */
  class Timer {
    const id: nat
    var refcnt: int
    var expires: u32
    var cancelled: bool
    ghost var past: Timers.Entry

    constructor (id: nat, refcnt: int, expires: u32, ghost past: Timers.Entry)
      requires past.id == id
      ensures this.id == id && this.refcnt == refcnt && this.expires == expires && !cancelled && this.past == past
    {
      this.id, this.refcnt, this.expires, this.cancelled, this.past := id, refcnt, expires, false, past;
    }

    ghost function Value(): Timers.Entry
      reads this
    {
      past.(id := id, refcnt := refcnt, expires := expires, cancelled := cancelled)
    }

    /** The part of a tick that concerns one timer. */
    method Visit(tick: nat, busy: bool)
      modifies this
      ensures Value() == Timers.Visit(old(Value()), tick, busy)
    {
      if busy {
        past := past.(contended := true);
      } else if !cancelled && expires < tick {
        cancelled := true;
        past := past.(starts := past.starts + [tick]);
      }
    }
  }

  ghost function Values(timers: seq<Timer>): (r: seq<Timers.Entry>)
    reads timers
    ensures |r| == |timers| && forall i :: 0 <= i < |r| ==> r[i] == timers[i].Value()
  {
    seq(|timers|, i requires 0 <= i < |timers| reads timers => timers[i].Value())
  }

  ghost predicate Distinct(timers: seq<Timer>) {
    forall i, j :: 0 <= i < j < |timers| ==> timers[i].id != timers[j].id
  }

  class TimerList {
    var tick: nat
    var next: nat
    var timers: seq<Timer>
    ghost var freed: seq<Timers.Entry>

    constructor ()
      ensures State() == Timers.EMPTY && Valid()
    {
      tick, next, timers, freed := 0, 0, [], [];
    }

    ghost function State(): Timers.Wheel
      reads this, timers
    {
      Timers.Wheel(tick, next, Values(timers), freed)
    }

    ghost predicate Valid()
      reads this
    {
      Distinct(timers) && forall i :: 0 <= i < |timers| ==> timers[i].id < next
    }

    /** `timer_add`. */
    method TimerAdd(expire: nat) returns (t: Timer)
      requires Valid()
      modifies this`timers, this`next
      ensures Valid() && fresh(t) && t.id == old(next) && State() == Timers.Step(old(State()), Timers.Add(expire))
    {
      t := new Timer(next, 1, U32(tick + expire), Timers.NewEntry(State(), expire, true));
      timers := timers + [t];
      next := next + 1;
    }

    /** `timer_oneshot`. */
    method TimerOneshot(expire: nat)
      requires Valid()
      modifies this`timers, this`next
      ensures Valid() && State() == Timers.Step(old(State()), Timers.Oneshot(expire))
    {
      var t := new Timer(next, 0, U32(tick + expire), Timers.NewEntry(State(), expire, false));
      timers := timers + [t];
      next := next + 1;
    }

    /** `timer_release`, on a timer that its holder has not given up. */
    method TimerRelease(t: Timer)
      requires Valid() && t in timers
      modifies t
      ensures Valid() && State() == Timers.Step(old(State()), Timers.Release(t.id))
    {
      ghost var l := Values(timers);
      Timers.ChangeAt(l, t.id, false);
      t.refcnt := t.refcnt - 1;
      t.past := t.past.(held := false);
      assert Values(timers) == Timers.Change(l, t.id, false);
    }

    /** `timer_cancel`. */
    method TimerCancel(t: Timer)
      requires Valid() && t in timers
      modifies t
      ensures Valid() && State() == Timers.Step(old(State()), Timers.Cancel(t.id))
    {
      ghost var l := Values(timers);
      Timers.ChangeAt(l, t.id, true);
      t.refcnt := t.refcnt - 1;
      t.cancelled := true;
      t.past := t.past.(held := false, stopped := true);
      assert Values(timers) == Timers.Change(l, t.id, true);
    }

    /** One turn of the loop of `timers_tick`: visits the timer at `i` and takes it out if it is dead. */
    method SweepOne(i: nat, t: Timer, busy: bool) returns (j: nat)
      requires Valid() && i < |timers| && t == timers[i]
      modifies this`timers, this`freed, t
      ensures Valid() && j <= |timers| && |timers| - j == |old(timers)| - i - 1
      ensures forall k :: 0 <= k < |timers| ==> timers[k] in old(timers)
      ensures Values(timers[j..]) == old(Values(timers[i + 1..]))
      ensures var v := Timers.Visit(old(t.Value()), tick, busy);
        && Values(timers[..j]) == (if !busy && Timers.Dead(v) then old(Values(timers[..i])) else old(Values(timers[..i])) + [v])
        && freed == if !busy && Timers.Dead(v) then old(freed) + [v] else old(freed)
    {
      ghost var l := timers;
      t.Visit(tick, busy);
      assert Values(l[..i]) == old(Values(timers[..i])) && Values(l[i + 1..]) == old(Values(timers[i + 1..]));
      if !busy && t.cancelled && t.refcnt == 0 {
        freed := freed + [t.Value()];
        timers := timers[..i] + timers[i + 1..];
        j := i;
        assert timers[..j] == l[..i] && timers[j..] == l[i + 1..];
      } else {
        j := i + 1;
        assert l[..j] == l[..i] + [t];
        assert Values(l[..j]) == Values(l[..i]) + [t.Value()];
      }
    }

    /** `timers_tick`, after the clock has moved on; `busy` are the timers whose lock is taken. */
    method TimersTick(busy: set<nat>)
      requires Valid()
      modifies this`tick, this`timers, this`freed, timers
      ensures Valid() && State() == Timers.Step(old(State()), Timers.Tick(busy))
    {
      tick := tick + Timers.TICK_MS;
      ghost var kept, dropped := Timers.Keep(Values(timers), tick, busy), Timers.Drop(Values(timers), tick, busy);
      ghost var f := freed;
      Sweep(busy, kept, f + dropped);
    }

    method Sweep(busy: set<nat>, ghost kept: seq<Timers.Entry>, ghost gone: seq<Timers.Entry>)
      requires Valid() && kept == Timers.Keep(Values(timers), tick, busy)
      requires gone == freed + Timers.Drop(Values(timers), tick, busy)
      modifies this`timers, this`freed, timers
      ensures Valid() && Values(timers) == kept && freed == gone
    {
      var i := 0;
      ghost var p, rest := Values(timers[..0]), Values(timers[0..]);
      assert p == [] && rest == Values(timers);
      while i < |timers|
        invariant 0 <= i <= |timers| && Valid()
        invariant forall j :: 0 <= j < |timers| ==> timers[j] in old(timers)
        invariant p == Values(timers[..i]) && rest == Values(timers[i..])
        invariant kept == p + Timers.Keep(rest, tick, busy) && gone == freed + Timers.Drop(rest, tick, busy)
        decreases |timers| - i
      {
        var t := timers[i];
        assert rest[0] == t.Value() && timers[i..][1..] == timers[i + 1..];
        assert rest == [t.Value()] + Values(timers[i + 1..]);
        SweepTurn(p, freed, t.Value(), Values(timers[i + 1..]), tick, busy);
        hide Timers.Keep, Timers.Drop, Timers.Visit, Timers.Dead, Values;
        i := SweepOne(i, t, t.id in busy);
        p, rest := Values(timers[..i]), Values(timers[i..]);
      }
      assert timers[..i] == timers && timers[i..] == [];
    }
  }

  lemma SweepTurn(p: seq<Timers.Entry>, f: seq<Timers.Entry>, e: Timers.Entry, rest: seq<Timers.Entry>, tick: nat, busy: set<nat>)
    ensures var v, dead := Timers.Visit(e, tick, e.id in busy), e.id !in busy && Timers.Dead(Timers.Visit(e, tick, e.id in busy));
      && p + Timers.Keep([e] + rest, tick, busy) == (if dead then p else p + [v]) + Timers.Keep(rest, tick, busy)
      && f + Timers.Drop([e] + rest, tick, busy) == (if dead then f + [v] else f) + Timers.Drop(rest, tick, busy)
  {
    assert ([e] + rest)[1..] == rest;
  }
}
