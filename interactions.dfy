/** Simulated user interactions on one component (ComponentInteractions.kt,
    in its current package and in the oldest, package-less revision): each
    helper builds one event and hands it to the listeners registered on the
    component, in registration order. Listeners are identities; what a
    listener does with a call is outside the library, so the model records
    every call in an append-only log. */
module Interactions {
  import opened Util

  /** Identity of a registered listener or action object. */
  type ListenerId = nat

  /** AWT event ids the helpers use. Every simulated mouse event is built by
      `makeMouseEvent`, which always uses MOUSE_CLICKED. */
  const MOUSE_CLICKED: int := 500
  const ACTION_PERFORMED: int := 1001
  const FOCUS_GAINED: int := 1004
  const FOCUS_LOST: int := 1005
  /** `makeActionEvent(this)` uses its default id. */
  const ACTION_EVENT_DEFAULT_ID: int := 0

  /** The events as abstract records: kind, component and the fields the
      library sets (the timestamp and modifiers are left out). */
  datatype Event =
    | MouseEvent(source: Widget, id: int, x: int, y: int, clickCount: int)
    | FocusEvent(source: Widget, id: int)
    | ActionEvent(source: Widget, id: int)

  /** The listener method that is invoked. */
  datatype Callback =
    | MouseClicked | MouseReleased | MouseEntered | MouseExited | MouseMoved
    | FocusGained | FocusLost | ActionPerformed

  /** One invocation of a listener method with an event. */
  datatype Call = Call(listener: ListenerId, callback: Callback, event: Event)

  /** Every listener invocation, oldest first. Only ever appended to. */
  class EventLog {
    var calls: seq<Call>

    constructor ()
      ensures calls == []
    {
      calls := [];
    }
  }

  /** The calls one listener receives: each callback of `cbs`, in order. */
  function ListenerCalls(l: ListenerId, cbs: seq<Callback>, e: Event): seq<Call>
  {
    seq(|cbs|, j requires 0 <= j < |cbs| => Call(l, cbs[j], e))
  }

  /** `listeners.forEach { cb1(e); cb2(e); ... }`: everything the first
      listener receives, then everything the second receives, and so on. */
  function Calls(ls: seq<ListenerId>, cbs: seq<Callback>, e: Event): seq<Call>
  {
    if ls == [] then [] else Calls(ls[..|ls| - 1], cbs, e) + ListenerCalls(ls[|ls| - 1], cbs, e)
  }

  lemma {:induction false} CallsLength(ls: seq<ListenerId>, cbs: seq<Callback>, e: Event)
    ensures |Calls(ls, cbs, e)| == |ls| * |cbs|
  {
    if ls != [] {
      CallsLength(ls[..|ls| - 1], cbs, e);
      assert (|ls| - 1) * |cbs| + |cbs| == |ls| * |cbs|;
    }
  }

  /** The exact dispatch order: call number `i * |cbs| + j` is callback `j`
      on listener `i`, so each listener finishes before the next starts. */
  lemma {:induction false} CallsAt(ls: seq<ListenerId>, cbs: seq<Callback>, e: Event, i: nat, j: nat)
    requires i < |ls| && j < |cbs|
    ensures |Calls(ls, cbs, e)| == |ls| * |cbs|
    ensures i * |cbs| + j < |ls| * |cbs|
    ensures Calls(ls, cbs, e)[i * |cbs| + j] == Call(ls[i], cbs[j], e)
  {
    var n, k := |ls|, |cbs|;
    var prefix := ls[..n - 1];
    CallsLength(ls, cbs, e);
    CallsLength(prefix, cbs, e);
    if i == n - 1 {
      assert i * k + j - |Calls(prefix, cbs, e)| == j;
    } else {
      assert (i + 1) * k <= (n - 1) * k by {
        MulMonotone(i + 1, n - 1, k);
      }
      CallsAt(prefix, cbs, e, i, j);
      assert prefix[i] == ls[i];
    }
    MulMonotone(i + 1, n, k);
  }

  lemma MulMonotone(a: nat, b: nat, k: nat)
    requires a <= b
    ensures a * k <= b * k
  {
  }

  /** Nothing but the named callbacks, on the registered listeners, with the
      one event. */
  lemma {:induction false} CallsOnly(ls: seq<ListenerId>, cbs: seq<Callback>, e: Event, c: Call)
    requires c in Calls(ls, cbs, e)
    ensures c.listener in ls && c.callback in cbs && c.event == e
  {
    var prefix := ls[..|ls| - 1];
    if c in Calls(prefix, cbs, e) {
      CallsOnly(prefix, cbs, e, c);
    }
  }

  /** Delivers `e` to each listener of `ls` in order, each listener receiving
      the callbacks `cbs` in order before the next listener is called. */
  method Notify(log: EventLog, ls: seq<ListenerId>, cbs: seq<Callback>, e: Event)
    modifies log
    ensures log.calls == old(log.calls) + Calls(ls, cbs, e)
  {
    var i := 0;
    while i < |ls|
      invariant 0 <= i <= |ls|
      invariant log.calls == old(log.calls) + Calls(ls[..i], cbs, e)
    {
      assert ls[..i + 1][..i] == ls[..i];
      log.calls := log.calls + ListenerCalls(ls[i], cbs, e);
      i := i + 1;
    }
    assert ls[..i] == ls;
  }

  /** The interaction-relevant state of one Swing component. */
  class Widget {
    var mouseListeners: seq<ListenerId>
    var mouseMotionListeners: seq<ListenerId>
    var focusListeners: seq<ListenerId>
    var actionListeners: seq<ListenerId>
    /** WHEN_FOCUSED input map: key code (no modifiers) to action name. */
    var inputMap: map<int, string>
    /** The component's own action map: action name to action object. */
    var actionMap: map<string, ListenerId>
    /** Position within the parent (`getX()`, `getY()`). */
    var x: int
    var y: int
    var isEnabled: bool
    var isSelected: bool
    /** A JToggleButton (for example a JCheckBox): a click flips its selection. */
    const isToggleButton: bool
    var text: string

    constructor (toggle: bool)
      ensures isToggleButton == toggle && isEnabled && !isSelected
      ensures mouseListeners == [] && mouseMotionListeners == [] && focusListeners == []
      ensures actionListeners == [] && inputMap == map[] && actionMap == map[]
      ensures x == 0 && y == 0 && text == ""
    {
      isToggleButton := toggle;
      isEnabled, isSelected := true, false;
      mouseListeners, mouseMotionListeners, focusListeners, actionListeners := [], [], [], [];
      inputMap, actionMap := map[], map[];
      x, y, text := 0, 0, "";
    }

    /** `doClick(x, y)`: mouseClicked then mouseReleased on each mouse listener. */
    method DoClick(log: EventLog, atX: int, atY: int)
      modifies log
      ensures log.calls == old(log.calls)
        + Calls(mouseListeners, [MouseClicked, MouseReleased], MouseEvent(this, MOUSE_CLICKED, atX, atY, 1))
    {
      var me := MouseEvent(this, MOUSE_CLICKED, atX, atY, 1);
      Notify(log, mouseListeners, [MouseClicked, MouseReleased], me);
    }

    /** `doubleClick(x, y)`: the same calls with a click count of two. */
    method DoubleClick(log: EventLog, atX: int, atY: int)
      modifies log
      ensures log.calls == old(log.calls)
        + Calls(mouseListeners, [MouseClicked, MouseReleased], MouseEvent(this, MOUSE_CLICKED, atX, atY, 2))
    {
      var me := MouseEvent(this, MOUSE_CLICKED, atX, atY, 2);
      Notify(log, mouseListeners, [MouseClicked, MouseReleased], me);
    }

    /** `doHover(x, y)`: mouseEntered only. */
    method DoHover(log: EventLog, atX: int, atY: int)
      modifies log
      ensures log.calls == old(log.calls)
        + Calls(mouseListeners, [MouseEntered], MouseEvent(this, MOUSE_CLICKED, atX, atY, 1))
    {
      var me := MouseEvent(this, MOUSE_CLICKED, atX, atY, 1);
      Notify(log, mouseListeners, [MouseEntered], me);
    }

    /** `doHoverAway(x, y)`: mouseExited only. */
    method DoHoverAway(log: EventLog, atX: int, atY: int)
      modifies log
      ensures log.calls == old(log.calls)
        + Calls(mouseListeners, [MouseExited], MouseEvent(this, MOUSE_CLICKED, atX, atY, 1))
    {
      var me := MouseEvent(this, MOUSE_CLICKED, atX, atY, 1);
      Notify(log, mouseListeners, [MouseExited], me);
    }

    /** `doMouseMove()`: mouseMoved on the motion listeners, at the
        component's own position. */
    method DoMouseMove(log: EventLog)
      modifies log
      ensures log.calls == old(log.calls)
        + Calls(mouseMotionListeners, [MouseMoved], MouseEvent(this, MOUSE_CLICKED, x, y, 1))
    {
      var me := MouseEvent(this, MOUSE_CLICKED, x, y, 1);
      Notify(log, mouseMotionListeners, [MouseMoved], me);
    }

    /** `processKeyPress(key)`: runs the action bound to the key, if the
        bound name is a key of the action map; otherwise does nothing.
        `ActionMap.keys()` is null for a map with no bindings of its own, so
        on an empty action map the `contains` call throws a
        NullPointerException (`npe`) before anything runs. */
    method ProcessKeyPress(log: EventLog, key: int) returns (npe: bool)
      modifies log
      ensures npe <==> actionMap == map[]
      ensures key in inputMap && inputMap[key] in actionMap ==>
        log.calls == old(log.calls)
          + [Call(actionMap[inputMap[key]], ActionPerformed, ActionEvent(this, ACTION_EVENT_DEFAULT_ID))]
      ensures !(key in inputMap && inputMap[key] in actionMap) ==> log.calls == old(log.calls)
    {
      if actionMap == map[] {
        return true;
      }
      npe := false;
      var actionName := if key in inputMap then Some(inputMap[key]) else None;
      if actionName.None? || actionName.value !in actionMap {
        return;
      }
      var action := actionMap[actionName.value];
      log.calls := log.calls + [Call(action, ActionPerformed, ActionEvent(this, ACTION_EVENT_DEFAULT_ID))];
    }

    /** `doLoseFocus()`: focusLost with a FOCUS_LOST event from this component. */
    method DoLoseFocus(log: EventLog)
      modifies log
      ensures log.calls == old(log.calls) + Calls(focusListeners, [FocusLost], FocusEvent(this, FOCUS_LOST))
    {
      Notify(log, focusListeners, [FocusLost], FocusEvent(this, FOCUS_LOST));
    }

    /** `doGainFocus()`: focusGained with a FOCUS_GAINED event from this component. */
    method DoGainFocus(log: EventLog)
      modifies log
      ensures log.calls == old(log.calls) + Calls(focusListeners, [FocusGained], FocusEvent(this, FOCUS_GAINED))
    {
      Notify(log, focusListeners, [FocusGained], FocusEvent(this, FOCUS_GAINED));
    }

    /** Swing's `AbstractButton.doClick()`, which `clickChild`, `check` and
        `uncheck` call: a disabled button ignores it; otherwise a toggle
        button flips its selection and then every action listener is called
        once, the most recently added first. */
    method Press(log: EventLog)
      modifies this`isSelected, log
      ensures isEnabled ==> isSelected == (if isToggleButton then !old(isSelected) else old(isSelected))
      ensures isEnabled ==> log.calls == old(log.calls) + PressCalls()
      ensures !isEnabled ==> isSelected == old(isSelected) && log.calls == old(log.calls)
    {
      if isEnabled {
        if isToggleButton {
          isSelected := !isSelected;
        }
        Notify(log, Reverse(actionListeners), [ActionPerformed], ActionEvent(this, ACTION_PERFORMED));
      }
    }

    /** The listener calls one effective `Press` makes. */
    function PressCalls(): seq<Call>
      reads this
    {
      Calls(Reverse(actionListeners), [ActionPerformed], ActionEvent(this, ACTION_PERFORMED))
    }

    /** `check()`: clicks the box only when it is unchecked. */
    method Check(log: EventLog)
      requires isToggleButton
      modifies this`isSelected, log
      ensures old(isSelected) ==> isSelected && log.calls == old(log.calls)
      ensures !old(isSelected) && isEnabled ==> isSelected && log.calls == old(log.calls) + PressCalls()
      ensures !old(isSelected) && !isEnabled ==> !isSelected && log.calls == old(log.calls)
    {
      if !isSelected {
        Press(log);
      }
    }

    /** `uncheck()`: clicks the box only when it is checked. */
    method Uncheck(log: EventLog)
      requires isToggleButton
      modifies this`isSelected, log
      ensures !old(isSelected) ==> !isSelected && log.calls == old(log.calls)
      ensures old(isSelected) && isEnabled ==> !isSelected && log.calls == old(log.calls) + PressCalls()
      ensures old(isSelected) && !isEnabled ==> isSelected && log.calls == old(log.calls)
    {
      if isSelected {
        Press(log);
      }
    }

    /** A second `check()` changes nothing: checking twice is checking once. */
    method CheckTwice(log: EventLog)
      requires isToggleButton
      modifies this`isSelected, log
      ensures isSelected == (old(isSelected) || isEnabled)
      ensures log.calls == old(log.calls) + (if !old(isSelected) && isEnabled then PressCalls() else [])
    {
      Check(log);
      Check(log);
    }

    /** A second `uncheck()` changes nothing either. */
    method UncheckTwice(log: EventLog)
      requires isToggleButton
      modifies this`isSelected, log
      ensures isSelected == (old(isSelected) && !isEnabled)
      ensures log.calls == old(log.calls) + (if old(isSelected) && isEnabled then PressCalls() else [])
    {
      Uncheck(log);
      Uncheck(log);
    }

    /** `typeText(newText)`. */
    method TypeText(newText: string)
      modifies this`text
      ensures text == newText
    {
      text := newText;
    }
  }

  /** The order `doClick` and `doubleClick` promise: listener `i` receives
      mouseClicked as call `2i` and mouseReleased as call `2i + 1`. */
  lemma ClickOrder(ls: seq<ListenerId>, e: Event, i: nat)
    requires i < |ls|
    ensures |Calls(ls, [MouseClicked, MouseReleased], e)| == 2 * |ls|
    ensures Calls(ls, [MouseClicked, MouseReleased], e)[2 * i] == Call(ls[i], MouseClicked, e)
    ensures Calls(ls, [MouseClicked, MouseReleased], e)[2 * i + 1] == Call(ls[i], MouseReleased, e)
  {
    CallsAt(ls, [MouseClicked, MouseReleased], e, i, 0);
    CallsAt(ls, [MouseClicked, MouseReleased], e, i, 1);
  }

  /** A helper with a single callback calls each listener exactly once, in
      registration order. */
  lemma SingleCallbackOrder(ls: seq<ListenerId>, cb: Callback, e: Event, i: nat)
    requires i < |ls|
    ensures |Calls(ls, [cb], e)| == |ls|
    ensures Calls(ls, [cb], e)[i] == Call(ls[i], cb, e)
  {
    CallsAt(ls, [cb], e, i, 0);
  }
}
