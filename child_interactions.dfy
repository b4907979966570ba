/** ChildInteractions.kt: `clickChild` resolves exactly one button below a
    container with `getChild` and clicks it; `clickOk`, `clickCancel`,
    `clickYes` and `clickNo` look for a button by its caption, ignoring
    case. */
module ChildInteractions {
  import opened Util
  import opened Widgets
  import opened Interactions
  import opened Finders

  /** The live widgets of every component below `root`. */
  function WidgetsUnder(root: Node): set<Widget>
  {
    var flat := Flatten(root.children);
    set i | 0 <= i < |flat| :: flat[i].widget
  }

  /** The widget `getChild` resolves lies below `root`. */
  lemma TargetUnder(h: Hierarchy, root: Node, cls: Class, name: Option<string>, text: Option<string>,
                    filterFn: Option<Node -> bool>)
    requires RequiredOutcome(h, root, cls, name, text, filterFn).Success?
    ensures RequiredOutcome(h, root, cls, name, text, filterFn).value.widget in WidgetsUnder(root)
  {
    ChildOutcomeMeaning(h, root, cls, name, text, filterFn);
    var flat := Flatten(root.children);
    var button := RequiredOutcome(h, root, cls, name, text, filterFn).value;
    var k :| 0 <= k < |flat| && flat[k] == button;
  }

  /** Every type that is a subtype of a subtype is a subtype: the relation
      Java's class hierarchy has. */
  predicate Transitive(h: Hierarchy)
  {
    forall t, u :: t in h && u in h[t] && u in h ==> h[u] <= h[t]
  }

  /** `clickChild(clazz, name, text, filterFn)` (synchronously): resolves the
      button with `getChild` and calls its `doClick()`. When resolution
      fails the exception propagates and nothing is clicked; otherwise the
      resolved button, and no other, is pressed. */
  method ClickChild(h: Hierarchy, root: Node, cls: Class, name: Option<string>, text: Option<string>,
                    filterFn: Option<Node -> bool>, log: EventLog) returns (error: Option<FinderError>)
    requires IsInstance(h, cls.id, ABSTRACT_BUTTON)
    modifies log, WidgetsUnder(root)`isSelected
    ensures var outcome := RequiredOutcome(h, root, cls, name, text, filterFn);
      outcome.Failure? ==>
        && error == Some(outcome.error)
        && log.calls == old(log.calls)
        && forall w :: w in WidgetsUnder(root) && old(allocated(w)) ==> w.isSelected == old(w.isSelected)
    ensures var outcome := RequiredOutcome(h, root, cls, name, text, filterFn);
      outcome.Success? ==>
        var target := outcome.value.widget;
        && error == None
        && (target.isEnabled ==> log.calls == old(log.calls) + target.PressCalls())
        && (!target.isEnabled ==> log.calls == old(log.calls))
        && target in WidgetsUnder(root)
        && forall w :: w in WidgetsUnder(root) && old(allocated(w)) ==>
             w.isSelected == (if w == target && w.isEnabled && w.isToggleButton then !old(w.isSelected) else old(w.isSelected))
  {
    var child := GetChild(h, root, cls, name, text, filterFn);
    if child.Failure? {
      return Some(child.error);
    }
    TargetUnder(h, root, cls, name, text, filterFn);
    PressUnder(root, child.value.widget, log);
    error := None;
  }

  /** `doClick()` on one widget below `root`: that widget's selection and the
      log change as `Press` says, and no other widget below `root` changes
      its selection. */
  method PressUnder(root: Node, target: Widget, log: EventLog)
    requires target in WidgetsUnder(root)
    modifies log, WidgetsUnder(root)`isSelected
    ensures target.isEnabled ==> log.calls == old(log.calls) + target.PressCalls()
    ensures !target.isEnabled ==> log.calls == old(log.calls)
    ensures forall w :: w in WidgetsUnder(root) && old(allocated(w)) ==>
              w.isSelected == (if w == target && w.isEnabled && w.isToggleButton then !old(w.isSelected) else old(w.isSelected))
  {
    target.Press(log);
  }

  /** The resolved target is a button: with a transitive hierarchy, every
      instance of a subtype of `AbstractButton` is an `AbstractButton`. */
  lemma TargetIsButton(h: Hierarchy, root: Node, cls: Class, name: Option<string>, text: Option<string>,
                       filterFn: Option<Node -> bool>)
    requires Transitive(h) && IsInstance(h, cls.id, ABSTRACT_BUTTON)
    requires RequiredOutcome(h, root, cls, name, text, filterFn).Success?
    ensures IsA(h, RequiredOutcome(h, root, cls, name, text, filterFn).value, ABSTRACT_BUTTON)
    ensures Matches(h, cls, name, text, filterFn, RequiredOutcome(h, root, cls, name, text, filterFn).value)
  {
    ChildOutcomeMeaning(h, root, cls, name, text, filterFn);
  }

  /** Only the target's own listeners hear the click: every call a
      successful `clickChild` logs goes to one of the target's action
      listeners with an event whose source is the target. */
  lemma ClickReachesOnlyTarget(target: Widget, c: Call)
    requires c in target.PressCalls()
    ensures c.listener in target.actionListeners
    ensures c.callback == ActionPerformed
    ensures c.event == ActionEvent(target, ACTION_PERFORMED)
  {
    var ls := Reverse(target.actionListeners);
    CallsOnly(ls, [ActionPerformed], ActionEvent(target, ACTION_PERFORMED), c);
    var i :| 0 <= i < |ls| && ls[i] == c.listener;
    assert target.actionListeners[|ls| - 1 - i] == c.listener;
  }

  /** The predicate of `clickCommonButton`: `it.text.equals(text, ignoreCase
      = true)`, false for a null caption. */
  function CommonButtonFilter(word: string): Node -> bool
  {
    (n: Node) => n.text.Some? && EqualsIgnoreCase(n.text.value, word)
  }

  /** The button a common-button helper resolves is the one button whose
      caption is the word, ignoring case. */
  lemma CommonButtonMeaning(h: Hierarchy, root: Node, button: Class, word: string)
    requires RequiredOutcome(h, root, button, None, None, Some(CommonButtonFilter(word))).Success?
    ensures var n := RequiredOutcome(h, root, button, None, None, Some(CommonButtonFilter(word))).value;
      && n.text.Some? && EqualsIgnoreCase(n.text.value, word) && IsA(h, n, button.id)
      && forall i :: 0 <= i < |Flatten(root.children)| && IsA(h, Flatten(root.children)[i], button.id)
           && Flatten(root.children)[i].text.Some? && EqualsIgnoreCase(Flatten(root.children)[i].text.value, word)
           ==> Flatten(root.children)[i] == n
  {
    var p := Some(CommonButtonFilter(word));
    ChildOutcomeMeaning(h, root, button, None, None, p);
    var flat := Flatten(root.children);
    forall i | 0 <= i < |flat| && IsA(h, flat[i], button.id) && flat[i].text.Some? && EqualsIgnoreCase(flat[i].text.value, word)
      ensures Matches(h, button, None, None, p, flat[i])
    {
    }
  }

  /** `clickCommonButton(text)`: `clickChild<AbstractButton>` with only the
      caption predicate, and no name or text filter. */
  method ClickCommonButton(h: Hierarchy, root: Node, button: Class, word: string, log: EventLog)
    returns (error: Option<FinderError>)
    requires button.id == ABSTRACT_BUTTON
    modifies log, WidgetsUnder(root)`isSelected
    ensures var outcome := RequiredOutcome(h, root, button, None, None, Some(CommonButtonFilter(word)));
      outcome.Failure? ==>
        && error == Some(outcome.error)
        && log.calls == old(log.calls)
        && forall w :: w in WidgetsUnder(root) && old(allocated(w)) ==> w.isSelected == old(w.isSelected)
    ensures var outcome := RequiredOutcome(h, root, button, None, None, Some(CommonButtonFilter(word)));
      outcome.Success? ==>
        var target := outcome.value.widget;
        && error == None
        && (target.isEnabled ==> log.calls == old(log.calls) + target.PressCalls())
        && (!target.isEnabled ==> log.calls == old(log.calls))
        && target in WidgetsUnder(root)
        && forall w :: w in WidgetsUnder(root) && old(allocated(w)) ==>
             w.isSelected == (if w == target && w.isEnabled && w.isToggleButton then !old(w.isSelected) else old(w.isSelected))
  {
    error := ClickChild(h, root, button, None, None, Some(CommonButtonFilter(word)), log);
  }

  /** `clickOk()`. */
  method ClickOk(h: Hierarchy, root: Node, button: Class, log: EventLog) returns (error: Option<FinderError>)
    requires button.id == ABSTRACT_BUTTON
    modifies log, WidgetsUnder(root)`isSelected
    ensures var outcome := RequiredOutcome(h, root, button, None, None, Some(CommonButtonFilter("ok")));
      outcome.Failure? ==>
        && error == Some(outcome.error)
        && log.calls == old(log.calls)
        && forall w :: w in WidgetsUnder(root) && old(allocated(w)) ==> w.isSelected == old(w.isSelected)
    ensures var outcome := RequiredOutcome(h, root, button, None, None, Some(CommonButtonFilter("ok")));
      outcome.Success? ==>
        var target := outcome.value.widget;
        && error == None
        && (target.isEnabled ==> log.calls == old(log.calls) + target.PressCalls())
        && (!target.isEnabled ==> log.calls == old(log.calls))
        && target in WidgetsUnder(root)
        && forall w :: w in WidgetsUnder(root) && old(allocated(w)) ==>
             w.isSelected == (if w == target && w.isEnabled && w.isToggleButton then !old(w.isSelected) else old(w.isSelected))
  {
    error := ClickCommonButton(h, root, button, "ok", log);
  }

  /** `clickCancel()`. */
  method ClickCancel(h: Hierarchy, root: Node, button: Class, log: EventLog) returns (error: Option<FinderError>)
    requires button.id == ABSTRACT_BUTTON
    modifies log, WidgetsUnder(root)`isSelected
    ensures var outcome := RequiredOutcome(h, root, button, None, None, Some(CommonButtonFilter("cancel")));
      outcome.Failure? ==>
        && error == Some(outcome.error)
        && log.calls == old(log.calls)
        && forall w :: w in WidgetsUnder(root) && old(allocated(w)) ==> w.isSelected == old(w.isSelected)
    ensures var outcome := RequiredOutcome(h, root, button, None, None, Some(CommonButtonFilter("cancel")));
      outcome.Success? ==>
        var target := outcome.value.widget;
        && error == None
        && (target.isEnabled ==> log.calls == old(log.calls) + target.PressCalls())
        && (!target.isEnabled ==> log.calls == old(log.calls))
        && target in WidgetsUnder(root)
        && forall w :: w in WidgetsUnder(root) && old(allocated(w)) ==>
             w.isSelected == (if w == target && w.isEnabled && w.isToggleButton then !old(w.isSelected) else old(w.isSelected))
  {
    error := ClickCommonButton(h, root, button, "cancel", log);
  }

  /** `clickYes()`. */
  method ClickYes(h: Hierarchy, root: Node, button: Class, log: EventLog) returns (error: Option<FinderError>)
    requires button.id == ABSTRACT_BUTTON
    modifies log, WidgetsUnder(root)`isSelected
    ensures var outcome := RequiredOutcome(h, root, button, None, None, Some(CommonButtonFilter("yes")));
      outcome.Failure? ==>
        && error == Some(outcome.error)
        && log.calls == old(log.calls)
        && forall w :: w in WidgetsUnder(root) && old(allocated(w)) ==> w.isSelected == old(w.isSelected)
    ensures var outcome := RequiredOutcome(h, root, button, None, None, Some(CommonButtonFilter("yes")));
      outcome.Success? ==>
        var target := outcome.value.widget;
        && error == None
        && (target.isEnabled ==> log.calls == old(log.calls) + target.PressCalls())
        && (!target.isEnabled ==> log.calls == old(log.calls))
        && target in WidgetsUnder(root)
        && forall w :: w in WidgetsUnder(root) && old(allocated(w)) ==>
             w.isSelected == (if w == target && w.isEnabled && w.isToggleButton then !old(w.isSelected) else old(w.isSelected))
  {
    error := ClickCommonButton(h, root, button, "yes", log);
  }

  /** `clickNo()`. */
  method ClickNo(h: Hierarchy, root: Node, button: Class, log: EventLog) returns (error: Option<FinderError>)
    requires button.id == ABSTRACT_BUTTON
    modifies log, WidgetsUnder(root)`isSelected
    ensures var outcome := RequiredOutcome(h, root, button, None, None, Some(CommonButtonFilter("no")));
      outcome.Failure? ==>
        && error == Some(outcome.error)
        && log.calls == old(log.calls)
        && forall w :: w in WidgetsUnder(root) && old(allocated(w)) ==> w.isSelected == old(w.isSelected)
    ensures var outcome := RequiredOutcome(h, root, button, None, None, Some(CommonButtonFilter("no")));
      outcome.Success? ==>
        var target := outcome.value.widget;
        && error == None
        && (target.isEnabled ==> log.calls == old(log.calls) + target.PressCalls())
        && (!target.isEnabled ==> log.calls == old(log.calls))
        && target in WidgetsUnder(root)
        && forall w :: w in WidgetsUnder(root) && old(allocated(w)) ==>
             w.isSelected == (if w == target && w.isEnabled && w.isToggleButton then !old(w.isSelected) else old(w.isSelected))
  {
    error := ClickCommonButton(h, root, button, "no", log);
  }

  /** The caption test ignores case: "OK", "Ok" and "ok" are all the ok
      button, "Okay" is not. */
  lemma CaptionIgnoresCase()
    ensures EqualsIgnoreCase("OK", "ok") && EqualsIgnoreCase("Ok", "ok")
    ensures EqualsIgnoreCase("CANCEL", "cancel") && EqualsIgnoreCase("Yes", "yes") && EqualsIgnoreCase("nO", "no")
    ensures !EqualsIgnoreCase("Okay", "ok")
  {
    assert CharEqualsIgnoreCase('O', 'o') && CharEqualsIgnoreCase('K', 'k');
    assert CharEqualsIgnoreCase('C', 'c') && CharEqualsIgnoreCase('A', 'a') && CharEqualsIgnoreCase('N', 'n');
    assert CharEqualsIgnoreCase('E', 'e') && CharEqualsIgnoreCase('L', 'l') && CharEqualsIgnoreCase('Y', 'y');
    assert CharEqualsIgnoreCase('S', 's');
  }
}
