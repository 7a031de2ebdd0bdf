/**
 * `showToast`: show a message in the `#toast` status region, or fall back to
 * `alert` when the page has none. A pending-hide timer fades the toast out after
 * the duration (3500 ms unless a positive duration is given) and a second timer
 * hides it 300 ms later. Timers are modelled by identifiers and firing events;
 * real time is not modelled.
 */
module Toasts {
  import opened Wrappers

  const DefaultDuration: nat := 3500
  const FadeDelay: nat := 300

  /** The fade-out timer armed by `showToast`, or the hide timer armed when the fade starts. */
  datatype TimerKind = FadeOut | Conceal

  datatype Timer = Timer(id: nat, kind: TimerKind, delay: nat)

  /**
   * The toast element: its `hidden` attribute, its text, its `show` and `hide`
   * classes; `slot` is the `_hideTimeout` field, `strays` the pending timers no
   * field refers to, `nextId` the next identifier `setTimeout` hands out.
   */
  datatype ToastState = ToastState(
    hidden: bool, text: string, showing: bool, fading: bool,
    slot: Option<Timer>, strays: set<nat>, nextId: nat)

  /** `opts.duration || 3500`. */
  function Duration(requested: Option<nat>): (d: nat)
    ensures d > 0
    ensures requested.Some? && requested.value > 0 ==> d == requested.value
    ensures requested == None || requested == Some(0) ==> d == DefaultDuration
  {
    if requested.Some? && requested.value > 0 then requested.value else DefaultDuration
  }

  /** The identifiers of the timers still pending. */
  function PendingIds(s: ToastState): set<nat> {
    (if s.slot.Some? then {s.slot.value.id} else {}) + s.strays
  }

  /** Every pending timer has an identifier below `nextId`. */
  ghost predicate Fresh(s: ToastState) {
    forall id :: id in PendingIds(s) ==> id < s.nextId
  }

  /**
   * `showToast(message, opts)` on a present toast: visible with the new text and
   * the `show` class, the timer in the slot cleared and a new fade-out timer
   * with a fresh identifier stored there; timers outside the slot survive.
   */
  function Shown(s: ToastState, message: string, duration: Option<nat>): (t: ToastState)
    ensures !t.hidden && t.text == message && t.showing && !t.fading
    ensures t.slot == Some(Timer(s.nextId, FadeOut, Duration(duration)))
    ensures PendingIds(t) == s.strays + {s.nextId}
    ensures Fresh(s) ==> Fresh(t) && s.nextId !in PendingIds(s)
  {
    var t := ToastState(false, message, true, false, Some(Timer(s.nextId, FadeOut, Duration(duration))), s.strays, s.nextId + 1);
    FreshStep(s, t);
    t
  }

  /**
   * Timer `id` fires, as the source is written: the fade-out timer removes `show`,
   * adds `hide` and arms a 300 ms timer that no field keeps; that timer, when it
   * fires, hides the toast whatever has been shown since.
   */
  function AfterTimerAsWritten(s: ToastState, id: nat): (t: ToastState)
    ensures s.slot.Some? && s.slot.value.id == id && s.slot.value.kind == FadeOut ==>
      && !t.showing && t.fading && t.hidden == s.hidden && t.text == s.text
      && t.slot == None && t.strays == s.strays + {s.nextId} && t.nextId == s.nextId + 1
    ensures s.slot.Some? && s.slot.value.id == id && s.slot.value.kind == Conceal ==>
      t.hidden && t.slot == None && t.strays == s.strays
    ensures id in s.strays && !(s.slot.Some? && s.slot.value.id == id) ==> t.hidden
    ensures id !in PendingIds(s) ==> t == s
    ensures Fresh(s) ==> Fresh(t)
  {
    var t :=
      if s.slot.Some? && s.slot.value.id == id then
        match s.slot.value.kind
        case FadeOut => s.(showing := false, fading := true, slot := None, strays := s.strays + {s.nextId}, nextId := s.nextId + 1)
        case Conceal => s.(hidden := true, slot := None)
      else if id in s.strays then s.(hidden := true, strays := s.strays - {id})
      else s;
    FreshStep(s, t);
    t
  }

  /**
   * Timer `id` fires, with the 300 ms hide timer kept in the `_hideTimeout` slot
   * as well, so that the next `showToast` cancels it.
   */
  function AfterTimer(s: ToastState, id: nat): (t: ToastState)
    ensures s.strays == {} ==> t.strays == {}
    ensures Fresh(s) ==> Fresh(t)
    ensures t.hidden ==> s.hidden || (s.slot.Some? && s.slot.value.id == id && s.slot.value.kind == Conceal) || id in s.strays
    ensures id !in PendingIds(s) ==> t == s
  {
    var t :=
      if s.slot.Some? && s.slot.value.id == id then
        match s.slot.value.kind
        case FadeOut => s.(showing := false, fading := true, slot := Some(Timer(s.nextId, Conceal, FadeDelay)), nextId := s.nextId + 1)
        case Conceal => s.(hidden := true, slot := None)
      else if id in s.strays then s.(hidden := true, strays := s.strays - {id})
      else s;
    FreshStep(s, t);
    t
  }

  /** A step that only drops pending timers, or adds the one numbered `s.nextId` and moves past it, keeps identifiers fresh. */
  lemma FreshStep(s: ToastState, t: ToastState)
    requires s.nextId <= t.nextId
    requires PendingIds(t) <= PendingIds(s) + (if s.nextId < t.nextId then {s.nextId} else {})
    ensures Fresh(s) ==> Fresh(t)
  {
    if Fresh(s) {
      forall i | i in PendingIds(t) ensures i < t.nextId {
        assert i == s.nextId || i in PendingIds(s);
      }
    }
  }

  /** The state after the timers `ids` fire in order. */
  function Run(s: ToastState, ids: seq<nat>): ToastState
    decreases |ids|
  {
    if ids == [] then s else Run(AfterTimer(s, ids[0]), ids[1..])
  }

  /** The same, as the source is written. */
  function RunAsWritten(s: ToastState, ids: seq<nat>): ToastState
    decreases |ids|
  {
    if ids == [] then s else RunAsWritten(AfterTimerAsWritten(s, ids[0]), ids[1..])
  }

  /**
   * Intended behaviour, proved of AfterTimer: after `showToast`, the toast stays
   * visible until the fade-out timer that call armed has fired, whatever other
   * timers fire in between.
   */
  lemma {:induction false} VisibleUntilOwnTimer(s: ToastState, message: string, duration: Option<nat>, ids: seq<nat>)
    requires s.strays == {}
    ensures Run(Shown(s, message, duration), ids).hidden ==> s.nextId in ids
  {
    VisibleWhileArmed(Shown(s, message, duration), s.nextId, ids);
  }

  lemma {:induction false} VisibleWhileArmed(t: ToastState, armed: nat, ids: seq<nat>)
    requires !t.hidden && t.strays == {} && t.slot.Some? && t.slot.value.id == armed && t.slot.value.kind == FadeOut
    ensures Run(t, ids).hidden ==> armed in ids
  {
    if ids != [] && ids[0] != armed {
      assert AfterTimer(t, ids[0]) == t;
      VisibleWhileArmed(t, armed, ids[1..]);
    }
  }

  /** The toast does hide: its fade-out timer and then the hide timer bring it back to hidden. */
  lemma HidesAfterBothTimers(s: ToastState, message: string, duration: Option<nat>)
    ensures Run(Shown(s, message, duration), [s.nextId, s.nextId + 1]).hidden
  {
    var t := Shown(s, message, duration);
    var u := AfterTimer(t, s.nextId);
    assert u.slot == Some(Timer(s.nextId + 1, Conceal, FadeDelay));
    assert [s.nextId, s.nextId + 1][1..] == [s.nextId + 1];
    assert Run(t, [s.nextId, s.nextId + 1]) == Run(u, [s.nextId + 1]);
    assert AfterTimer(u, s.nextId + 1).hidden;
    assert Run(u, [s.nextId + 1]) == Run(AfterTimer(u, s.nextId + 1), []);
  }

  /** As written, the toast hides as well: the fade-out timer arms the stray hide timer, which then fires. */
  lemma HidesAfterBothTimersAsWritten(s: ToastState, message: string, duration: Option<nat>)
    ensures RunAsWritten(Shown(s, message, duration), [s.nextId, s.nextId + 1]).hidden
  {
    var t := Shown(s, message, duration);
    var u := AfterTimerAsWritten(t, s.nextId);
    assert u.slot == None && s.nextId + 1 in u.strays;
    assert [s.nextId, s.nextId + 1][1..] == [s.nextId + 1];
    assert RunAsWritten(t, [s.nextId, s.nextId + 1]) == RunAsWritten(u, [s.nextId + 1]);
    assert AfterTimerAsWritten(u, s.nextId + 1).hidden;
    assert RunAsWritten(u, [s.nextId + 1]) == RunAsWritten(AfterTimerAsWritten(u, s.nextId + 1), []);
  }

  /**
   * As written, a second toast shown while the first one's 300 ms hide timer is
   * pending is hidden when that timer fires, long before its own fade-out timer.
   */
  lemma SecondToastHiddenEarlyAsWritten()
    ensures
      var first := RunAsWritten(Shown(ToastState(true, "", false, false, None, {}, 0), "first", None), [0]);
      var second := Shown(first, "second", None);
      var after := RunAsWritten(second, [1]);
      && !second.hidden && second.slot == Some(Timer(2, FadeOut, DefaultDuration))
      && after.hidden && after.text == "second" && after.slot == second.slot
  {
  }

  /**
   * The corrected run of the same events: the second toast's own fade-out timer
   * is pending and it stays visible when the first toast's hide timer would have fired.
   */
  lemma SecondToastVisible()
    ensures
      var first := Run(Shown(ToastState(true, "", false, false, None, {}, 0), "first", None), [0]);
      var second := Shown(first, "second", None);
      var after := Run(second, [1]);
      && !second.hidden && second.slot == Some(Timer(2, FadeOut, DefaultDuration))
      && !after.hidden && after.text == "second" && after.slot == second.slot
  {
    var first := Run(Shown(ToastState(true, "", false, false, None, {}, 0), "first", None), [0]);
    assert first.slot == Some(Timer(1, Conceal, FadeDelay)) && first.strays == {};
  }

  /**
   * The `#toast` element, with the `hidden` and timer fields of ToastState and
   * the `alert` calls made when the page has no toast region. `strays` holds the
   * 300 ms hide timers the script arms without keeping them in `_hideTimeout`.
   */
  class Toast {
    const present: bool
    var hidden: bool
    var text: string
    var showing: bool
    var fading: bool
    var hideTimeout: Option<Timer>
    var strays: set<nat>
    var nextId: nat
    var alerts: seq<string>

    /** The element's state. */
    function State(): ToastState
      reads this
    {
      ToastState(hidden, text, showing, fading, hideTimeout, strays, nextId)
    }

    ghost predicate Valid()
      reads this
    {
      Fresh(State())
    }

    constructor (present: bool, hidden: bool, text: string)
      ensures Valid() && this.present == present && alerts == []
      ensures State() == ToastState(hidden, text, false, false, None, {}, 0)
    {
      this.present := present;
      this.hidden, this.text := hidden, text;
      showing, fading := false, false;
      hideTimeout, strays, nextId := None, {}, 0;
      alerts := [];
    }

    /** `showToast(message, {duration})`. */
    method Show(message: string, duration: Option<nat>)
      requires Valid()
      modifies this
      ensures Valid()
      ensures present ==> State() == Shown(old(State()), message, duration) && alerts == old(alerts)
      ensures !present ==> State() == old(State()) && alerts == old(alerts) + [message]
    {
      if !present {
        alerts := alerts + [message];
        return;
      }
      hidden := false;
      text := message;
      showing, fading := false, false;
      showing := true;
      hideTimeout := None;
      hideTimeout := Some(Timer(nextId, FadeOut, Duration(duration)));
      nextId := nextId + 1;
      assert State() == Shown(old(State()), message, duration);
    }

    /**
     * Timer `id` fires, as the script is written: the fade-out timer arms a
     * 300 ms hide timer that `_hideTimeout` does not keep, and such a timer
     * hides the toast whatever has been shown since.
     */
    method TimerFiredAsWritten(id: nat)
      requires Valid()
      modifies this
      ensures Valid() && alerts == old(alerts)
      ensures State() == AfterTimerAsWritten(old(State()), id)
    {
      if hideTimeout.Some? && hideTimeout.value.id == id {
        match hideTimeout.value.kind
        case FadeOut =>
          showing := false;
          fading := true;
          hideTimeout := None;
          strays := strays + {nextId};
          nextId := nextId + 1;
        case Conceal =>
          hidden := true;
          hideTimeout := None;
      } else if id in strays {
        hidden := true;
        strays := strays - {id};
      }
      assert State() == AfterTimerAsWritten(old(State()), id);
    }

    /** Timer `id` fires, with the 300 ms hide timer kept in `_hideTimeout` so that the next `showToast` cancels it. */
    method TimerFired(id: nat)
      requires Valid()
      modifies this
      ensures Valid() && alerts == old(alerts)
      ensures State() == AfterTimer(old(State()), id)
    {
      if hideTimeout.Some? && hideTimeout.value.id == id {
        match hideTimeout.value.kind
        case FadeOut =>
          showing := false;
          fading := true;
          hideTimeout := Some(Timer(nextId, Conceal, FadeDelay));
          nextId := nextId + 1;
        case Conceal =>
          hidden := true;
          hideTimeout := None;
      } else if id in strays {
        hidden := true;
        strays := strays - {id};
      }
      assert State() == AfterTimer(old(State()), id);
    }
  }
}
