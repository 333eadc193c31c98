/** The handler logic of the generic input dialog (client/src/ui/windows/dialog.tsx): the
    input's value, the loading and success flags and the error line, and how submitting,
    the reply, typing, key presses and closing move them. What the dialog draws is not
    part of this model. */
module Dialogs {
  import opened Wrappers
  import Text

  /** The dialog's four pieces of state. */
  datatype View = View(value: string, isLoading: bool, success: bool, error: string)

  /** The props the logic reads. `validation` answers an error message or null; the
      empty message, being falsy, lets the value through like null. */
  datatype Props = Props(
    initialValue: string,
    validation: Option<string -> Option<string>>,
    hasSuccessClose: bool,
    allowKeyboardInput: bool)

  const EmptyFieldMessage: string := "Поле не может быть пустым"
  const FailureMessage: string := "Произошла ошибка"
  const ConnectionMessage: string := "Ошибка соединения"

  /** The dialog as it first renders. */
  function Initial(p: Props): (v: View)
    ensures v.value == p.initialValue && !v.isLoading && !v.success && v.error == ""
  {
    View(p.initialValue, false, false, "")
  }

  /** The error the validation reports for `value`, if it reports a truthy one. */
  function ValidationError(p: Props, value: string): (e: Option<string>)
    ensures e.Some? ==> e.value != [] && p.validation.Some?
  {
    if p.validation.None? then None
    else
      var answer := p.validation.value(value);
      if answer.Some? && answer.value != [] then answer else None
  }

  /** A handler's outcome: the new state and the value handed to `onSubmit`, if any. */
  datatype Outcome = Outcome(view: View, submitted: Option<string>)

  /** `handleSubmit`: a blank value and a failed validation only set the error;
      otherwise loading starts, the error clears and the value goes to `onSubmit`. */
  function HandleSubmit(p: Props, v: View): (o: Outcome)
    ensures Text.IsBlank(v.value) ==> o == Outcome(v.(error := EmptyFieldMessage), None)
    ensures !Text.IsBlank(v.value) && ValidationError(p, v.value).Some? ==>
      o == Outcome(v.(error := ValidationError(p, v.value).value), None)
    ensures o.submitted.Some? <==> !Text.IsBlank(v.value) && ValidationError(p, v.value).None?
    ensures o.submitted.Some? ==>
      o.submitted.value == v.value && o.view == v.(isLoading := true, error := "")
  {
    Text.TrimEmptyIffBlank(v.value);
    if Text.Trim(v.value) == [] then Outcome(v.(error := EmptyFieldMessage), None)
    else match ValidationError(p, v.value)
      case Some(e) => Outcome(v.(error := e), None)
      case None => Outcome(v.(isLoading := true, error := ""), Some(v.value))
  }

  /** The awaited reply of `onSubmit`: success raises the success flag and leaves loading
      on until the timer; failure shows the message, or a generic one for a missing or
      empty message, and stops loading. */
  function OnResponse(v: View, success: bool, message: Option<string>): (r: View)
    ensures success ==> r == v.(success := true)
    ensures !success ==> !r.isLoading && r.success == v.success && r.value == v.value
    ensures !success && message.Some? && message.value != [] ==> r.error == message.value
    ensures !success && (message.None? || message.value == []) ==> r.error == FailureMessage
  {
    if success then v.(success := true)
    else v.(error := Text.OrDefault(message, FailureMessage), isLoading := false)
  }

  /** The `catch` branch: `onSubmit` rejected. */
  function OnConnectionError(v: View): (r: View)
    ensures r.error == ConnectionMessage && !r.isLoading
    ensures r.(error := v.error, isLoading := v.isLoading) == v
  {
    v.(error := ConnectionMessage, isLoading := false)
  }

  /** The 1500 ms timer after a success: the flags drop; with `onSuccessClose` that
      callback is called (the second component) and the value is kept, otherwise the
      value returns to `initialValue`. */
  function OnSuccessTimeout(p: Props, v: View): (r: (View, bool))
    ensures !r.0.success && !r.0.isLoading && r.0.error == v.error
    ensures r.1 == p.hasSuccessClose
    ensures r.0.value == if p.hasSuccessClose then v.value else p.initialValue
  {
    var settled := v.(success := false, isLoading := false);
    if p.hasSuccessClose then (settled, true) else (settled.(value := p.initialValue), false)
  }

  /** `handleChange`: the input's new text replaces the value and any error clears. */
  function HandleChange(v: View, text: string): (r: View)
    ensures r.value == text && r.error == ""
    ensures r.isLoading == v.isLoading && r.success == v.success
  {
    v.(value := text, error := if v.error != [] then "" else v.error)
  }

  /** `handleKeyDown(key)`: Enter submits; with keyboard input off nothing else happens;
      Backspace drops the last character; other named keys (longer than one character)
      are ignored; a character key is appended. */
  function HandleKeyDown(p: Props, v: View, key: string): (o: Outcome)
    ensures key == "Enter" ==> o == HandleSubmit(p, v)
    ensures key != "Enter" ==> o.submitted == None
    ensures key != "Enter" && !p.allowKeyboardInput ==> o.view == v
    ensures key != "Enter" && p.allowKeyboardInput && key == "Backspace" ==> o.view == v.(value := Text.DropLast(v.value))
    ensures key != "Backspace" && key != "Enter" && p.allowKeyboardInput ==>
      o.view == v.(value := if |key| > 1 then v.value else v.value + key)
  {
    if key == "Enter" then HandleSubmit(p, v)
    else if !p.allowKeyboardInput then Outcome(v, None)
    else if key == "Backspace" then Outcome(v.(value := Text.DropLast(v.value)), None)
    else if |key| > 1 then Outcome(v, None)
    else Outcome(v.(value := v.value + key), None)
  }

  /** The effect on `isOpen`: a closed dialog returns to its initial value with no
      error and no success; loading is left as it was. */
  function OnOpenChange(p: Props, v: View, isOpen: bool): (r: View)
    ensures isOpen ==> r == v
    ensures !isOpen ==> r == Initial(p).(isLoading := v.isLoading)
  {
    if isOpen then v else v.(value := p.initialValue, error := "", success := false)
  }

  /** The view after pressing each key of `keys` in turn, as single-character keys. */
  function TypeKeys(p: Props, v: View, keys: string): View
    decreases |keys|
  {
    if keys == [] then v else TypeKeys(p, HandleKeyDown(p, v, [keys[0]]).view, keys[1..])
  }

  /** With keyboard input on, typing characters appends exactly them and nothing is
      submitted on the way. */
  lemma {:induction false} TypingAppends(p: Props, v: View, keys: string)
    requires p.allowKeyboardInput
    ensures TypeKeys(p, v, keys) == v.(value := v.value + keys)
    decreases |keys|
  {
    if keys != [] {
      var w := HandleKeyDown(p, v, [keys[0]]).view;
      assert w == v.(value := v.value + [keys[0]]);
      TypingAppends(p, w, keys[1..]);
      assert v.value + [keys[0]] + keys[1..] == v.value + keys;
    }
  }

  /** Backspace undoes the character just typed. */
  lemma BackspaceUndoesKey(p: Props, v: View, c: char)
    requires p.allowKeyboardInput
    ensures HandleKeyDown(p, HandleKeyDown(p, v, [c]).view, "Backspace").view == v
  {
    var w := HandleKeyDown(p, v, [c]).view;
    assert w.value[..|w.value| - 1] == v.value;
  }

  /** Closing then reopening the dialog discards any typing and any error. */
  lemma CloseForgetsTyping(p: Props, v: View, keys: string)
    requires p.allowKeyboardInput
    ensures OnOpenChange(p, TypeKeys(p, v, keys), false) == Initial(p).(isLoading := v.isLoading)
  {
    TypingAppends(p, v, keys);
  }
}
