/** src/timer.c as a state machine: the timer list, the tick, and what the holders of timers do. */
module Timers {
  import opened Words

  const TICK_MS := 10

  /** `struct timer`. The fields after `cancelled` are history that the C code does not keep: when it was armed
      and for how long, whether its holder still has its reference, whether the holder cancelled it, whether a
      tick ever found it locked, and the ticks at which its handler was started. */
  datatype Entry = Entry(
    id: nat, refcnt: int, expires: u32, cancelled: bool,
    armedAt: nat, expire: nat, held: bool, stopped: bool, contended: bool, starts: seq<nat>)

  datatype Wheel = Wheel(tick: nat, next: nat, list: seq<Entry>, freed: seq<Entry>)

  const EMPTY := Wheel(0, 0, [], [])

  datatype Op = Add(expire: nat) | Oneshot(expire: nat) | Release(id: nat) | Cancel(id: nat) | Tick(busy: set<nat>)

  function NewEntry(w: Wheel, expire: nat, held: bool): Entry {
    Entry(w.next, if held then 1 else 0, U32(w.tick + expire), false, w.tick, expire, held, false, false, [])
  }

  function Released(e: Entry): Entry {
    e.(refcnt := e.refcnt - 1, held := false)
  }

  function Cancelled(e: Entry): Entry {
    e.(refcnt := e.refcnt - 1, cancelled := true, held := false, stopped := true)
  }

  function Changed(e: Entry, id: nat, cancel: bool): Entry {
    if e.id != id then e else if cancel then Cancelled(e) else Released(e)
  }

  function Change(list: seq<Entry>, id: nat, cancel: bool): (r: seq<Entry>)
    ensures |r| == |list|
  {
    if list == [] then []
    else [Changed(list[0], id, cancel)] + Change(list[1..], id, cancel)
  }

  /** What a tick does to one timer: `busy` if its lock is taken. */
  function Visit(e: Entry, tick: nat, busy: bool): Entry {
    if busy then e.(contended := true)
    else if !e.cancelled && e.expires < tick then e.(cancelled := true, starts := e.starts + [tick])
    else e
  }

  predicate Dead(e: Entry) {
    e.cancelled && e.refcnt == 0
  }

  function Keep(list: seq<Entry>, tick: nat, busy: set<nat>): seq<Entry> {
    if list == [] then []
    else
      var e := Visit(list[0], tick, list[0].id in busy);
      (if list[0].id !in busy && Dead(e) then [] else [e]) + Keep(list[1..], tick, busy)
  }

  function Drop(list: seq<Entry>, tick: nat, busy: set<nat>): seq<Entry> {
    if list == [] then []
    else
      var e := Visit(list[0], tick, list[0].id in busy);
      (if list[0].id !in busy && Dead(e) then [e] else []) + Drop(list[1..], tick, busy)
  }

  function Step(w: Wheel, op: Op): Wheel {
    match op
    case Add(expire) => w.(next := w.next + 1, list := w.list + [NewEntry(w, expire, true)])
    case Oneshot(expire) => w.(next := w.next + 1, list := w.list + [NewEntry(w, expire, false)])
    case Release(id) => w.(list := Change(w.list, id, false))
    case Cancel(id) => w.(list := Change(w.list, id, true))
    case Tick(busy) =>
      var tick := w.tick + TICK_MS;
      w.(tick := tick, list := Keep(w.list, tick, busy), freed := w.freed + Drop(w.list, tick, busy))
  }

  /** Each holder gives up its reference once, and no expiry time leaves the 32-bit range. */
  predicate Legal(w: Wheel, op: Op) {
    match op
    case Add(expire) => w.tick + expire < MOD32
    case Oneshot(expire) => w.tick + expire < MOD32
    case Release(id) => exists i :: 0 <= i < |w.list| && w.list[i].id == id && w.list[i].held
    case Cancel(id) => exists i :: 0 <= i < |w.list| && w.list[i].id == id && w.list[i].held
    case Tick(_) => true
  }

  function Run(ops: seq<Op>): Wheel {
    if ops == [] then EMPTY else Step(Run(ops[..|ops| - 1]), ops[|ops| - 1])
  }

  predicate LegalRun(ops: seq<Op>) {
    ops == [] || (LegalRun(ops[..|ops| - 1]) && Legal(Run(ops[..|ops| - 1]), ops[|ops| - 1]))
  }

  // ----- what holds of every timer -----

  predicate Good(e: Entry, tick: nat) {
    && e.refcnt == (if e.held then 1 else 0)
    && e.expires == e.armedAt + e.expire
    && (e.stopped ==> !e.held)
    && |e.starts| <= 1 && (e.cancelled <==> e.starts != [] || e.stopped)
    && (e.starts != [] ==> e.expires < e.starts[0] <= tick)
    && (e.starts != [] && !e.contended ==> e.starts[0] <= e.expires + TICK_MS)
    && (!e.cancelled && !e.contended ==> tick <= e.expires)
  }

  predicate Inv(w: Wheel) {
    && (forall i :: 0 <= i < |w.list| ==> Good(w.list[i], w.tick) && w.list[i].id < w.next)
    && (forall i :: 0 <= i < |w.freed| ==> Good(w.freed[i], w.tick) && Dead(w.freed[i]) && w.freed[i].id < w.next)
    && (forall i, j :: 0 <= i < j < |w.list| ==> w.list[i].id != w.list[j].id)
    && (forall i, j :: 0 <= i < j < |w.freed| ==> w.freed[i].id != w.freed[j].id)
    && (forall i, j :: 0 <= i < |w.list| && 0 <= j < |w.freed| ==> w.list[i].id != w.freed[j].id)
  }

  lemma {:induction false} ChangeAt(list: seq<Entry>, id: nat, cancel: bool)
    ensures forall i :: 0 <= i < |list| ==> Change(list, id, cancel)[i] == Changed(list[i], id, cancel)
  {
    if list != [] {
      ChangeAt(list[1..], id, cancel);
    }
  }

  /** A later tick keeps what holds of a timer, whether the tick starts it, finds it locked or passes it by. */
  lemma VisitKeepsGood(e: Entry, tick: nat, busy: bool)
    requires Good(e, tick)
    ensures Good(Visit(e, tick + TICK_MS, busy), tick + TICK_MS)
  {
  }

  lemma VisitKeepsId(e: Entry, tick: nat, busy: bool)
    ensures Visit(e, tick, busy).id == e.id
  {
  }

  /** Where a kept or dropped entry comes from. */
  lemma {:induction false} KeepAt(list: seq<Entry>, tick: nat, busy: set<nat>, i: nat) returns (j: nat)
    requires i < |Keep(list, tick, busy)|
    ensures j < |list| && Keep(list, tick, busy)[i] == Visit(list[j], tick, list[j].id in busy)
    ensures list[j].id in busy || !Dead(Keep(list, tick, busy)[i])
  {
    var e := Visit(list[0], tick, list[0].id in busy);
    if list[0].id !in busy && Dead(e) {
      j := KeepAt(list[1..], tick, busy, i);
      j := j + 1;
    } else if i == 0 {
      j := 0;
    } else {
      j := KeepAt(list[1..], tick, busy, i - 1);
      j := j + 1;
    }
  }

  lemma {:induction false} DropAt(list: seq<Entry>, tick: nat, busy: set<nat>, i: nat) returns (j: nat)
    requires i < |Drop(list, tick, busy)|
    ensures j < |list| && Drop(list, tick, busy)[i] == Visit(list[j], tick, false) && list[j].id !in busy
    ensures Dead(Drop(list, tick, busy)[i])
  {
    var e := Visit(list[0], tick, list[0].id in busy);
    if list[0].id in busy || !Dead(e) {
      j := DropAt(list[1..], tick, busy, i);
      j := j + 1;
    } else if i == 0 {
      j := 0;
    } else {
      j := DropAt(list[1..], tick, busy, i - 1);
      j := j + 1;
    }
  }

  predicate Unique(list: seq<Entry>) {
    forall i, j :: 0 <= i < j < |list| ==> list[i].id != list[j].id
  }

  /** A sweep neither loses nor repeats a timer. */
  lemma {:induction false} SweepSplits(list: seq<Entry>, tick: nat, busy: set<nat>)
    requires Unique(list)
    ensures var k, d := Keep(list, tick, busy), Drop(list, tick, busy);
      && Unique(k) && Unique(d) && |k| + |d| == |list|
      && (forall i, j :: 0 <= i < |k| && 0 <= j < |d| ==> k[i].id != d[j].id)
  {
    if list != [] {
      var rest := list[1..];
      SweepSplits(rest, tick, busy);
      VisitKeepsId(list[0], tick, list[0].id in busy);
      hide Visit, Dead;
      var k, d := Keep(rest, tick, busy), Drop(rest, tick, busy);
      forall i | 0 <= i < |k| ensures k[i].id != list[0].id {
        var j := KeepAt(rest, tick, busy, i);
        VisitKeepsId(rest[j], tick, rest[j].id in busy);
      }
      forall i | 0 <= i < |d| ensures d[i].id != list[0].id {
        var j := DropAt(rest, tick, busy, i);
        VisitKeepsId(rest[j], tick, false);
      }
    }
  }

  lemma TickKeepsInv(w: Wheel, busy: set<nat>)
    requires Inv(w)
    ensures Inv(Step(w, Tick(busy)))
  {
    var tick, t := w.tick + TICK_MS, Step(w, Tick(busy));
    var k, d := Keep(w.list, tick, busy), Drop(w.list, tick, busy);
    hide Keep, Drop, Visit, Good, Dead;
    SweepSplits(w.list, tick, busy);
    forall i | 0 <= i < |k|
      ensures Good(k[i], tick) && k[i].id < w.next && forall j :: 0 <= j < |w.freed| ==> k[i].id != w.freed[j].id
    {
      var j := KeepAt(w.list, tick, busy, i);
      VisitKeepsGood(w.list[j], w.tick, w.list[j].id in busy);
      VisitKeepsId(w.list[j], tick, w.list[j].id in busy);
    }
    forall i | 0 <= i < |d|
      ensures Good(d[i], tick) && d[i].id < w.next && Dead(d[i])
      ensures forall j :: 0 <= j < |w.freed| ==> d[i].id != w.freed[j].id
    {
      var j := DropAt(w.list, tick, busy, i);
      VisitKeepsGood(w.list[j], w.tick, false);
      VisitKeepsId(w.list[j], tick, false);
    }
    GoodLater(w.freed, w.tick);
  }

  /** What has been freed no longer changes. */
  lemma GoodLater(freed: seq<Entry>, tick: nat)
    requires forall i :: 0 <= i < |freed| ==> Good(freed[i], tick) && Dead(freed[i])
    ensures forall i :: 0 <= i < |freed| ==> Good(freed[i], tick + TICK_MS)
  {
  }

  lemma StepKeepsInv(w: Wheel, op: Op)
    requires Inv(w) && Legal(w, op)
    ensures Inv(Step(w, op))
  {
    match op {
      case Add(_) =>
      case Oneshot(_) =>
      case Release(id) => ChangeKeepsInv(w, id, false);
      case Cancel(id) => ChangeKeepsInv(w, id, true);
      case Tick(busy) => TickKeepsInv(w, busy); hide Inv, Step;
    }
  }

  lemma ChangeKeepsInv(w: Wheel, id: nat, cancel: bool)
    requires Inv(w) && Legal(w, Release(id))
    ensures Inv(w.(list := Change(w.list, id, cancel)))
  {
    ChangeAt(w.list, id, cancel);
    hide Change, Good, Changed, Dead;
    var i :| 0 <= i < |w.list| && w.list[i].id == id && w.list[i].held;
    forall j | 0 <= j < |w.list|
      ensures Good(Changed(w.list[j], id, cancel), w.tick) && Changed(w.list[j], id, cancel).id == w.list[j].id
    {
      ChangedGood(w.list[j], id, cancel, w.tick);
    }
  }

  lemma ChangedGood(e: Entry, id: nat, cancel: bool, tick: nat)
    requires Good(e, tick) && (e.id == id ==> e.held)
    ensures Good(Changed(e, id, cancel), tick) && Changed(e, id, cancel).id == e.id
  {
  }

  lemma {:induction false} RunInv(ops: seq<Op>)
    requires LegalRun(ops)
    ensures Inv(Run(ops))
    decreases |ops|
  {
    if ops != [] {
      RunInv(ops[..|ops| - 1]);
      StepKeepsInv(Run(ops[..|ops| - 1]), ops[|ops| - 1]);
      hide Step, Inv;
    }
  }

  /** Over every run in which each holder gives up its reference once: a handler starts at most once; it starts
      after `expire` has passed and, unless the timer was found locked, at most 10 ms later; a timer that was
      neither started nor cancelled is still within its time; and what has been freed was cancelled or had
      fired, and nobody held a reference. */
  lemma TimersAreOnTime(ops: seq<Op>, e: Entry)
    requires LegalRun(ops) && (e in Run(ops).list || e in Run(ops).freed)
    ensures |e.starts| <= 1
    ensures e.starts != [] ==> e.expire < e.starts[0] - e.armedAt
    ensures e.starts != [] && !e.contended ==> e.starts[0] - e.armedAt <= e.expire + 10
    ensures e.starts == [] && !e.stopped && !e.contended ==> Run(ops).tick - e.armedAt <= e.expire
    ensures e in Run(ops).freed ==> e !in Run(ops).list && !e.held && (e.starts != [] || e.stopped)
  {
    RunInv(ops);
    hide Run;
  }

  // ----- what a tick frees -----

  /** The timer is not locked, nobody counts on it, and it has fired, is cancelled, or is due at this tick. */
  predicate FreedBy(e: Entry, tick: nat, busy: set<nat>) {
    e.id !in busy && !e.held && (e.stopped || e.starts != [] || e.expires < tick)
  }

  lemma FreedByIsDead(e: Entry, now: nat, busy: set<nat>)
    requires Good(e, now)
    ensures FreedBy(e, now + TICK_MS, busy) <==>
            e.id !in busy && Dead(Visit(e, now + TICK_MS, false))
  {
  }

  lemma {:induction false} DroppedIfDead(list: seq<Entry>, tick: nat, busy: set<nat>, i: nat) returns (j: nat)
    requires i < |list| && list[i].id !in busy && Dead(Visit(list[i], tick, false))
    ensures j < |Drop(list, tick, busy)| && Drop(list, tick, busy)[j] == Visit(list[i], tick, false)
  {
    if i == 0 {
      j := 0;
    } else {
      j := DroppedIfDead(list[1..], tick, busy, i - 1);
      if list[0].id !in busy && Dead(Visit(list[0], tick, false)) {
        j := j + 1;
      }
    }
  }

  /** The sweep takes the timer out of the list. */
  predicate SweptOut(list: seq<Entry>, tick: nat, busy: set<nat>, id: nat) {
    exists j :: 0 <= j < |Drop(list, tick, busy)| && Drop(list, tick, busy)[j].id == id
  }

  lemma DroppedExactly(list: seq<Entry>, tick: nat, busy: set<nat>, i: nat)
    requires Unique(list) && i < |list|
    ensures SweptOut(list, tick, busy, list[i].id) <==> list[i].id !in busy && Dead(Visit(list[i], tick, false))
  {
    hide Dead, Visit, Drop;
    VisitKeepsId(list[i], tick, false);
    if list[i].id !in busy && Dead(Visit(list[i], tick, false)) {
      var j := DroppedIfDead(list, tick, busy, i);
    }
    if SweptOut(list, tick, busy, list[i].id) {
      var j :| 0 <= j < |Drop(list, tick, busy)| && Drop(list, tick, busy)[j].id == list[i].id;
      var k := DropAt(list, tick, busy, j);
      VisitKeepsId(list[k], tick, false);
      assert k == i;
    }
  }

  /** In every run, the next tick frees exactly these timers. */
  lemma TickFreesExactly(ops: seq<Op>, busy: set<nat>, i: nat)
    requires LegalRun(ops) && i < |Run(ops).list|
    ensures var w, t := Run(ops), Step(Run(ops), Tick(busy));
      && w.freed <= t.freed
      && ((exists j :: |w.freed| <= j < |t.freed| && t.freed[j].id == w.list[i].id) <==>
          FreedBy(w.list[i], w.tick + TICK_MS, busy))
  {
    var w := Run(ops);
    RunInv(ops);
    FreedByIsDead(w.list[i], w.tick, busy);
    DroppedExactly(w.list, w.tick + TICK_MS, busy, i);
    hide Run, Good, Dead, Visit, FreedBy, LegalRun;
    FreedAre(w, busy, w.list[i].id);
  }

  lemma FreedAre(w: Wheel, busy: set<nat>, id: nat)
    ensures var t := Step(w, Tick(busy));
      && w.freed <= t.freed
      && ((exists j :: |w.freed| <= j < |t.freed| && t.freed[j].id == id) <==> SweptOut(w.list, w.tick + TICK_MS, busy, id))
  {
    hide Drop, Keep;
    var t, d := Step(w, Tick(busy)), Drop(w.list, w.tick + TICK_MS, busy);
    assert forall j :: 0 <= j < |d| ==> t.freed[|w.freed| + j] == d[j];
  }

  /** So after a tick that found nothing locked, every timer left is counted on by its holder or within its time. */
  lemma NothingLeaks(ops: seq<Op>, i: nat)
    requires LegalRun(ops) && i < |Step(Run(ops), Tick({})).list|
    ensures var t := Step(Run(ops), Tick({})); var e := t.list[i];
      e.held || (e.starts == [] && !e.stopped && t.tick <= e.expires)
  {
    var w := Run(ops);
    RunInv(ops);
    var j := KeepAt(w.list, w.tick + TICK_MS, {}, i);
    KeptIsInUse(w.list[j], w.tick);
    hide Run, Keep, Drop, Visit, Good, Dead, LegalRun;
  }

  lemma KeptIsInUse(e: Entry, now: nat)
    requires Good(e, now) && !Dead(Visit(e, now + TICK_MS, false))
    ensures var v := Visit(e, now + TICK_MS, false);
      v.held || (v.starts == [] && !v.stopped && now + TICK_MS <= v.expires)
  {
  }

  // ----- a cancelled timer never starts -----

  /** The history of timer `id`, wherever the timer is. */
  ghost predicate Has(w: Wheel, id: nat, starts: seq<nat>) {
    || (exists i :: 0 <= i < |w.list| && w.list[i].id == id && w.list[i].stopped && w.list[i].starts == starts)
    || (exists i :: 0 <= i < |w.freed| && w.freed[i].id == id && w.freed[i].starts == starts)
  }

  lemma {:induction false} KeptOrDropped(list: seq<Entry>, tick: nat, busy: set<nat>, i: nat)
    requires i < |list|
    ensures var e := Visit(list[i], tick, list[i].id in busy);
      e in Keep(list, tick, busy) || e in Drop(list, tick, busy)
  {
    if i > 0 {
      KeptOrDropped(list[1..], tick, busy, i - 1);
    }
  }

  lemma StoppedStaysSilent(w: Wheel, op: Op, id: nat, starts: seq<nat>)
    requires Inv(w) && Legal(w, op) && Has(w, id, starts)
    ensures Has(Step(w, op), id, starts)
  {
    var t := Step(w, op);
    if i :| 0 <= i < |w.freed| && w.freed[i].id == id && w.freed[i].starts == starts {
      assert t.freed[i] == w.freed[i];
    } else {
      var i :| 0 <= i < |w.list| && w.list[i].id == id && w.list[i].stopped && w.list[i].starts == starts;
      match op {
        case Add(_) => assert t.list[i] == w.list[i];
        case Oneshot(_) => assert t.list[i] == w.list[i];
        case Release(x) => ChangeAt(w.list, x, false); assert t.list[i] == w.list[i];
        case Cancel(x) => ChangeAt(w.list, x, true); assert t.list[i] == w.list[i];
        case Tick(busy) => StoppedThroughTick(w, busy, i);
      }
    }
  }

  lemma VisitLeavesStopped(e: Entry, tick: nat, busy: bool)
    requires Good(e, tick) && e.stopped
    ensures var v := Visit(e, tick + TICK_MS, busy); v.id == e.id && v.stopped && v.starts == e.starts
  {
  }

  lemma StoppedThroughTick(w: Wheel, busy: set<nat>, i: nat)
    requires Inv(w) && i < |w.list| && w.list[i].stopped
    ensures Has(Step(w, Tick(busy)), w.list[i].id, w.list[i].starts)
  {
    var tick, t := w.tick + TICK_MS, Step(w, Tick(busy));
    hide Good, Dead, Keep, Drop, Visit;
    var e := Visit(w.list[i], tick, w.list[i].id in busy);
    VisitLeavesStopped(w.list[i], w.tick, w.list[i].id in busy);
    hide Inv;
    KeptOrDropped(w.list, tick, busy, i);
    if e in Keep(w.list, tick, busy) {
      var j :| 0 <= j < |t.list| && t.list[j] == e;
    } else {
      var j :| 0 <= j < |Drop(w.list, tick, busy)| && Drop(w.list, tick, busy)[j] == e;
      assert t.freed[|w.freed| + j] == e;
    }
  }

  /** Whatever happens after its holder has cancelled it, a timer's handler is not started again. */
  lemma {:induction false} CancelledNeverStarts(ops: seq<Op>, more: seq<Op>, id: nat, starts: seq<nat>)
    requires LegalRun(ops + more) && LegalRun(ops) && Has(Run(ops), id, starts)
    ensures Has(Run(ops + more), id, starts)
    decreases |more|
  {
    if more == [] {
      assert ops + more == ops;
    } else {
      var n := |more| - 1;
      assert (ops + more)[..|ops + more| - 1] == ops + more[..n];
      CancelledNeverStarts(ops, more[..n], id, starts);
      RunInv(ops + more[..n]);
      StoppedStaysSilent(Run(ops + more[..n]), more[n], id, starts);
      hide Step, Inv, Has, Legal;
    }
  }

  /** Cancelling puts a timer in that position. */
  lemma CancelStops(w: Wheel, i: nat)
    requires Inv(w) && i < |w.list| && w.list[i].held
    ensures Has(Step(w, Cancel(w.list[i].id)), w.list[i].id, w.list[i].starts)
  {
    ChangeAt(w.list, w.list[i].id, true);
    assert Step(w, Cancel(w.list[i].id)).list[i] == Cancelled(w.list[i]);
  }
}
