/** The device-local application store (lib/store.ts): the current
    check-in, a newest-first event log and the trusted contacts. Each store
    action is a pure function of the state; the clock reading and the fresh
    identifier the action would generate arrive as parameters. */
module Store {
  import opened Wrappers

  datatype EventType = Panic | CheckIn | Alert

  datatype EventStatus = Triggered | Confirmed | Cancelled

  datatype Event = Event(
    id: string,
    kind: EventType,
    timestamp: int,
    status: EventStatus,
    checkInTime: Option<int>,
    alertTime: Option<int>)

  /** The running check-in; `graceWindowEnd` is set once the alert fires. */
  datatype CheckInState = CheckInState(isActive: bool, startTime: int, checkInTime: int, graceWindowEnd: Option<int>)

  datatype Contact = Contact(id: string, name: string, phone: string, isPrimary: bool)

  datatype State = State(events: seq<Event>, checkIn: Option<CheckInState>, contacts: seq<Contact>)

  /** Five minutes: the store always uses this, whatever duration is configured. */
  const CHECK_IN_DURATION_MS: int := 5 * 60 * 1000

  /** Two minutes of grace after the alert fires. */
  const GRACE_WINDOW_MS: int := 2 * 60 * 1000

  /** A fresh store: no events, no check-in, one placeholder contact. */
  const INITIAL: State := State([], None, [Contact("default-1", "Emergency Contact", "+1234567890", true)])

  /** `startCheckIn`: a fresh active check-in due five minutes from now. */
  function StartCheckIn(st: State, now: int): (r: State)
    ensures r.checkIn.Some?
    ensures r.checkIn.value.isActive && r.checkIn.value.startTime == now
    ensures r.checkIn.value.checkInTime == now + 300000
    ensures r.checkIn.value.graceWindowEnd.None?
    ensures r.events == st.events && r.contacts == st.contacts
  {
    st.(checkIn := Some(CheckInState(true, now, now + CHECK_IN_DURATION_MS, None)))
  }

  /** `confirmCheckIn`: without a check-in nothing happens; otherwise one
      confirmed check-in event carrying the due time is put in front of the
      log and the check-in is cleared, also while its alert is running. */
  function ConfirmCheckIn(st: State, now: int, id: string): (r: State)
    ensures st.checkIn.None? ==> r == st
    ensures st.checkIn.Some? ==>
              && r.checkIn.None?
              && r.contacts == st.contacts
              && |r.events| == |st.events| + 1
              && r.events[1..] == st.events
              && r.events[0] == Event(id, CheckIn, now, Confirmed, Some(st.checkIn.value.checkInTime), None)
  {
    match st.checkIn
    case None => st
    case Some(c) =>
      st.(events := [Event(id, CheckIn, now, Confirmed, Some(c.checkInTime), None)] + st.events,
          checkIn := None)
  }

  /** `cancelCheckIn`: the check-in is dropped and nothing is logged. */
  function CancelCheckIn(st: State): (r: State)
    ensures r.checkIn.None?
    ensures r.events == st.events && r.contacts == st.contacts
  {
    st.(checkIn := None)
  }

  /** `triggerAlert`: on every call one triggered alert event is put in front
      of the log, and an existing check-in gets a grace window ending two
      minutes from now; a missing check-in stays missing. */
  function TriggerAlert(st: State, now: int, id: string): (r: State)
    ensures |r.events| == |st.events| + 1 && r.events[1..] == st.events
    ensures r.events[0].id == id && r.events[0].kind == Alert && r.events[0].status == Triggered
    ensures r.events[0].timestamp == now && r.events[0].alertTime == Some(now)
    ensures r.events[0].checkInTime == if st.checkIn.Some? then Some(st.checkIn.value.checkInTime) else None
    ensures st.checkIn.None? ==> r.checkIn.None?
    ensures st.checkIn.Some? ==>
              && r.checkIn.Some?
              && r.checkIn.value.graceWindowEnd == Some(now + 120000)
              && r.checkIn.value.(graceWindowEnd := None) == st.checkIn.value.(graceWindowEnd := None)
    ensures r.contacts == st.contacts
  {
    var checkInTime := if st.checkIn.Some? then Some(st.checkIn.value.checkInTime) else None;
    var ev := Event(id, Alert, now, Triggered, checkInTime, Some(now));
    st.(events := [ev] + st.events,
        checkIn := if st.checkIn.Some? then Some(st.checkIn.value.(graceWindowEnd := Some(now + GRACE_WINDOW_MS))) else None)
  }

  /** The JavaScript truthiness of `checkIn?.graceWindowEnd`: present and not 0. */
  predicate GraceWindowSet(c: Option<CheckInState>) {
    c.Some? && c.value.graceWindowEnd.Some? && c.value.graceWindowEnd.value != 0
  }

  /** `cancelAlert`: only while a grace window is set and has not passed (the
      end instant itself still counts) is one cancelled alert event put in
      front of the log and the check-in cleared; otherwise nothing changes. */
  function CancelAlert(st: State, now: int, id: string): (r: State)
    ensures r != st <==> GraceWindowSet(st.checkIn) && now <= st.checkIn.value.graceWindowEnd.value
    ensures r != st ==>
              && r.checkIn.None?
              && r.contacts == st.contacts
              && r.events == [Event(id, Alert, now, Cancelled, None, None)] + st.events
  {
    if !GraceWindowSet(st.checkIn) then st
    else if now > st.checkIn.value.graceWindowEnd.value then st
    else st.(events := [Event(id, Alert, now, Cancelled, None, None)] + st.events, checkIn := None)
  }

  /** `clearEvents`: the only action that empties the log. */
  function ClearEvents(st: State): (r: State)
    ensures r.events == [] && r.checkIn == st.checkIn && r.contacts == st.contacts
  {
    st.(events := [])
  }

  /** `addTrustedContact`: the new contact, with a fresh id, goes last. */
  function AddTrustedContact(st: State, name: string, phone: string, isPrimary: bool, id: string): (r: State)
    ensures |r.contacts| == |st.contacts| + 1
    ensures r.contacts[..|st.contacts|] == st.contacts
    ensures r.contacts[|st.contacts|] == Contact(id, name, phone, isPrimary)
    ensures r.events == st.events && r.checkIn == st.checkIn
  {
    st.(contacts := st.contacts + [Contact(id, name, phone, isPrimary)])
  }

  /** The contacts whose id differs from `id`, in their original order. */
  function WithoutId(cs: seq<Contact>, id: string): (r: seq<Contact>)
    ensures |r| <= |cs|
  {
    if cs == [] then []
    else if cs[0].id == id then WithoutId(cs[1..], id)
    else [cs[0]] + WithoutId(cs[1..], id)
  }

  /** The filter keeps exactly the contacts whose id differs. */
  lemma WithoutIdKeepsOthers(cs: seq<Contact>, id: string)
    ensures var r := WithoutId(cs, id);
            && (forall k :: 0 <= k < |r| ==> r[k].id != id && r[k] in cs)
            && (forall c :: c in cs && c.id != id ==> c in r)
  {
    WithoutIdOnlyOthers(cs, id);
    WithoutIdKeepsAll(cs, id);
    var r := WithoutId(cs, id);
    assert forall k :: 0 <= k < |r| ==> r[k] in r;
  }

  lemma {:induction false} WithoutIdOnlyOthers(cs: seq<Contact>, id: string)
    ensures forall c :: c in WithoutId(cs, id) ==> c.id != id && c in cs
  {
    if cs != [] {
      var rest := WithoutId(cs[1..], id);
      WithoutIdOnlyOthers(cs[1..], id);
      assert cs == [cs[0]] + cs[1..];
      if cs[0].id != id {
        assert WithoutId(cs, id) == [cs[0]] + rest;
      }
    }
  }

  lemma {:induction false} WithoutIdKeepsAll(cs: seq<Contact>, id: string)
    ensures forall c :: c in cs && c.id != id ==> c in WithoutId(cs, id)
  {
    if cs != [] {
      var rest := WithoutId(cs[1..], id);
      WithoutIdKeepsAll(cs[1..], id);
      assert cs == [cs[0]] + cs[1..];
      if cs[0].id != id {
        assert WithoutId(cs, id) == [cs[0]] + rest;
      }
    }
  }

  /** `removeTrustedContact`: every contact with the given id goes, the rest stay. */
  function RemoveTrustedContact(st: State, id: string): (r: State)
    ensures forall c :: c in r.contacts <==> c in st.contacts && c.id != id
    ensures r.events == st.events && r.checkIn == st.checkIn
  {
    WithoutIdKeepsOthers(st.contacts, id);
    st.(contacts := WithoutId(st.contacts, id))
  }

  /** Removal works piecewise, so the kept contacts keep their relative order. */
  lemma {:induction false} WithoutIdAppend(a: seq<Contact>, b: seq<Contact>, id: string)
    ensures WithoutId(a + b, id) == WithoutId(a, id) + WithoutId(b, id)
  {
    if a != [] {
      var ab := a + b;
      assert ab[0] == a[0];
      assert ab[1..] == a[1..] + b;
      WithoutIdAppend(a[1..], b, id);
      var ra, rb := WithoutId(a[1..], id), WithoutId(b, id);
      assert WithoutId(ab[1..], id) == ra + rb;
      if a[0].id == id {
        assert WithoutId(a, id) == ra;
        assert WithoutId(ab, id) == ra + rb;
      } else {
        assert WithoutId(a, id) == [a[0]] + ra;
        assert WithoutId(ab, id) == [a[0]] + (ra + rb);
        assert [a[0]] + (ra + rb) == ([a[0]] + ra) + rb;
      }
    } else {
      assert a + b == b;
    }
  }

  /** Removing an id nobody has changes nothing. */
  lemma {:induction false} WithoutAbsentId(cs: seq<Contact>, id: string)
    requires forall k :: 0 <= k < |cs| ==> cs[k].id != id
    ensures WithoutId(cs, id) == cs
  {
    if cs != [] {
      WithoutAbsentId(cs[1..], id);
    }
  }

  /** Removing the same id twice is the same as removing it once. */
  lemma RemoveIdempotent(st: State, id: string)
    ensures RemoveTrustedContact(RemoveTrustedContact(st, id), id) == RemoveTrustedContact(st, id)
  {
    WithoutIdKeepsOthers(st.contacts, id);
    WithoutAbsentId(WithoutId(st.contacts, id), id);
  }

  /** A contact added with a fresh id and then removed by that id leaves the
      contact list as it was. */
  lemma AddThenRemove(st: State, name: string, phone: string, isPrimary: bool, id: string)
    requires forall k :: 0 <= k < |st.contacts| ==> st.contacts[k].id != id
    ensures RemoveTrustedContact(AddTrustedContact(st, name, phone, isPrimary, id), id) == st
  {
    WithoutIdAppend(st.contacts, [Contact(id, name, phone, isPrimary)], id);
    WithoutAbsentId(st.contacts, id);
    assert WithoutId([Contact(id, name, phone, isPrimary)], id) == [];
  }

  // ---------------------------------------------------------------------------
  // Runs of store actions

  datatype Action =
    | Start(now: int)
    | Confirm(now: int, id: string)
    | CancelCheck
    | Trigger(now: int, id: string)
    | CancelAl(now: int, id: string)
    | Clear
    | AddContact(name: string, phone: string, isPrimary: bool, id: string)
    | RemoveContact(id: string)

  function Step(st: State, a: Action): State {
    match a
    case Start(now) => StartCheckIn(st, now)
    case Confirm(now, id) => ConfirmCheckIn(st, now, id)
    case CancelCheck => CancelCheckIn(st)
    case Trigger(now, id) => TriggerAlert(st, now, id)
    case CancelAl(now, id) => CancelAlert(st, now, id)
    case Clear => ClearEvents(st)
    case AddContact(name, phone, isPrimary, id) => AddTrustedContact(st, name, phone, isPrimary, id)
    case RemoveContact(id) => RemoveTrustedContact(st, id)
  }

  function Run(st: State, actions: seq<Action>): State
    decreases |actions|
  {
    if actions == [] then st else Run(Step(st, actions[0]), actions[1..])
  }

  /** `a` is what is left of `b` once some newer entries are taken off its front. */
  predicate IsSuffix<T(==)>(a: seq<T>, b: seq<T>) {
    |a| <= |b| && b[|b| - |a|..] == a
  }

  /** Every action but `clearEvents` adds at most one event, in front, and
      leaves the existing entries as they were. */
  lemma StepPrepends(st: State, a: Action)
    requires !a.Clear?
    ensures IsSuffix(st.events, Step(st, a).events)
    ensures |Step(st, a).events| <= |st.events| + 1
  {
  }

  /** Over any run without `clearEvents`, the earlier log survives unchanged
      at the tail of the later one. */
  lemma {:induction false} RunPrepends(st: State, actions: seq<Action>)
    requires forall k :: 0 <= k < |actions| ==> !actions[k].Clear?
    ensures IsSuffix(st.events, Run(st, actions).events)
    ensures |Run(st, actions).events| <= |st.events| + |actions|
    decreases |actions|
  {
    if actions != [] {
      var next := Step(st, actions[0]);
      StepPrepends(st, actions[0]);
      RunPrepends(next, actions[1..]);
      SuffixTransitive(st.events, next.events, Run(next, actions[1..]).events);
    }
  }

  lemma SuffixTransitive<T>(a: seq<T>, b: seq<T>, c: seq<T>)
    requires IsSuffix(a, b) && IsSuffix(b, c)
    ensures IsSuffix(a, c)
  {
    assert c[|c| - |a|..] == c[|c| - |b|..][|b| - |a|..];
  }

  /** Only `clearEvents` can shorten the log. */
  lemma OnlyClearShrinks(st: State, a: Action)
    requires |Step(st, a).events| < |st.events|
    ensures a.Clear?
  {
    if !a.Clear? {
      StepPrepends(st, a);
    }
  }

  // ---------------------------------------------------------------------------
  // The check-in and alert lifecycle

  /** After a check-in starts and its alert fires at `t1`, the alert can be
      cancelled at `t2` exactly when `t2` is at most two minutes after `t1`. */
  lemma CancelWindow(st: State, t0: int, t1: int, t2: int, id1: string, id2: string)
    requires t1 >= 0
    ensures var fired := TriggerAlert(StartCheckIn(st, t0), t1, id1);
            CancelAlert(fired, t2, id2).checkIn.None? <==> t2 <= t1 + 120000
  {
  }

  /** A confirm is accepted during an alert: the check-in and its grace window
      are gone and the log records a confirmation, not a cancellation. */
  lemma ConfirmDuringAlert(st: State, t1: int, t2: int, id1: string, id2: string)
    requires st.checkIn.Some?
    ensures var r := ConfirmCheckIn(TriggerAlert(st, t1, id1), t2, id2);
            && r.checkIn.None?
            && r.events[0].kind == CheckIn && r.events[0].status == Confirmed
            && r.events[1].kind == Alert && r.events[1].status == Triggered
  {
  }

  /** Firing the alert twice logs two alert events and the later grace window wins. */
  lemma TriggerTwice(st: State, t1: int, t2: int, id1: string, id2: string)
    requires st.checkIn.Some?
    ensures var r := TriggerAlert(TriggerAlert(st, t1, id1), t2, id2);
            && |r.events| == |st.events| + 2
            && r.checkIn.value.graceWindowEnd == Some(t2 + GRACE_WINDOW_MS)
  {
  }

  /** A cancelled check-in cannot have its alert cancelled. */
  lemma CancelAlertAfterCancelCheckIn(st: State, now: int, id: string)
    ensures CancelAlert(CancelCheckIn(st), now, id) == CancelCheckIn(st)
  {
  }
}
