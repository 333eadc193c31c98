/** The handler logic of the rename window (client/src/ui/windows/change-name.tsx): the
    typed name, the loading and success flags and the error line. Whether the network
    store holds a connected socket is passed in as `connected`. */
module ChangeName {
  import opened Wrappers
  import Text
  import Protocol
  import ElysiaServer

  datatype View = View(newName: string, isLoading: bool, success: bool, error: string)

  const MaxNameLength := 16
  const EmptyNameMessage: string := "Имя не может быть пустым"
  const TooLongMessage: string := "Максимальная длина имени - 16 символов"
  const ConnectionMessage: string := "Ошибка соединения"
  const TakenMessage: string := "Это имя уже занято"

  function Initial(): (v: View)
    ensures v.newName == "" && !v.isLoading && !v.success && v.error == ""
  {
    View("", false, false, "")
  }

  /** A handler's outcome: the new state and the name emitted as `playerRename`, if any. */
  datatype Outcome = Outcome(view: View, sent: Option<string>)

  /** `handleSave`: a blank name, a name over 16 characters (counted before trimming)
      and a missing or disconnected socket each set their error and emit nothing, in
      that order of checks; otherwise loading starts, the error clears and the name is
      emitted as typed. */
  function HandleSave(v: View, connected: bool): (o: Outcome)
    ensures Text.IsBlank(v.newName) ==> o == Outcome(v.(error := EmptyNameMessage), None)
    ensures !Text.IsBlank(v.newName) && |v.newName| > MaxNameLength ==> o == Outcome(v.(error := TooLongMessage), None)
    ensures !Text.IsBlank(v.newName) && |v.newName| <= MaxNameLength && !connected ==>
      o == Outcome(v.(error := ConnectionMessage), None)
    ensures o.sent.Some? <==> !Text.IsBlank(v.newName) && |v.newName| <= MaxNameLength && connected
    ensures o.sent.Some? ==> o.sent.value == v.newName && o.view == v.(isLoading := true, error := "")
  {
    Text.TrimEmptyIffBlank(v.newName);
    if Text.Trim(v.newName) == [] then Outcome(v.(error := EmptyNameMessage), None)
    else if |v.newName| > MaxNameLength then Outcome(v.(error := TooLongMessage), None)
    else if !connected then Outcome(v.(error := ConnectionMessage), None)
    else Outcome(v.(isLoading := true, error := ""), Some(v.newName))
  }

  /** The emit's acknowledgement: success raises the flag until the timer; failure shows
      the server's message, or "name taken" when it sent none, and stops loading. */
  function OnReply(v: View, success: bool, message: Option<string>): (r: View)
    ensures success ==> r == v.(success := true)
    ensures !success ==> !r.isLoading && r.newName == v.newName && r.success == v.success
    ensures !success && message.Some? && message.value != [] ==> r.error == message.value
    ensures !success && (message.None? || message.value == []) ==> r.error == TakenMessage
  {
    if success then v.(success := true)
    else v.(error := Text.OrDefault(message, TakenMessage), isLoading := false)
  }

  /** The 1500 ms timer after a success: flags down, the window asked to close (the
      second component), the name cleared. */
  function OnSuccessTimeout(v: View): (r: (View, bool))
    ensures r.0 == v.(success := false, isLoading := false, newName := "") && r.1
  {
    (v.(success := false, isLoading := false, newName := ""), true)
  }

  /** The key handler: Enter saves; Backspace drops the last character; other named
      keys are ignored; a character key is appended, with no length cap. */
  function HandleKey(v: View, key: string, connected: bool): (o: Outcome)
    ensures key == "Enter" ==> o == HandleSave(v, connected)
    ensures key != "Enter" ==> o.sent == None
    ensures key == "Backspace" ==> o.view == v.(newName := Text.DropLast(v.newName))
    ensures key != "Enter" && key != "Backspace" ==> o.view == v.(newName := if |key| > 1 then v.newName else v.newName + key)
  {
    if key == "Enter" then HandleSave(v, connected)
    else if key == "Backspace" then Outcome(v.(newName := Text.DropLast(v.newName)), None)
    else if |key| > 1 then Outcome(v, None)
    else Outcome(v.(newName := v.newName + key), None)
  }

  /** The effect on `isOpen`: closing clears the name, the error and the success flag. */
  function OnOpenChange(v: View, isOpen: bool): (r: View)
    ensures isOpen ==> r == v
    ensures !isOpen ==> r == Initial().(isLoading := v.isLoading)
  {
    if isOpen then v else v.(newName := "", error := "", success := false)
  }

  function TypeKeys(v: View, keys: string, connected: bool): View
    decreases |keys|
  {
    if keys == [] then v else TypeKeys(HandleKey(v, [keys[0]], connected).view, keys[1..], connected)
  }

  /** Typing characters one key at a time appends exactly them. */
  lemma {:induction false} TypingAppends(v: View, keys: string, connected: bool)
    ensures TypeKeys(v, keys, connected) == v.(newName := v.newName + keys)
    decreases |keys|
  {
    if keys != [] {
      var w := HandleKey(v, [keys[0]], connected).view;
      assert w == v.(newName := v.newName + [keys[0]]);
      TypingAppends(w, keys[1..], connected);
      assert v.newName + [keys[0]] + keys[1..] == v.newName + keys;
    }
  }

  /** The key handler has no cap: any number of characters can be typed, and only saving
      enforces the 16-character limit. */
  lemma TypingIsUncapped(v: View, keys: string, connected: bool)
    requires |v.newName + keys| > MaxNameLength
    ensures |TypeKeys(v, keys, connected).newName| > MaxNameLength
    ensures HandleSave(TypeKeys(v, keys, connected), connected).sent == None
  {
    TypingAppends(v, keys, connected);
  }

  /** A name the window emits always passes the server's blank check: the server either
      accepts it or refuses it as taken or unknown, never as empty. */
  lemma EmittedNamesPassServerCheck(v: View, connected: bool, s: ElysiaServer.State, sender: string)
    requires HandleSave(v, connected).sent.Some?
    ensures var reply := ElysiaServer.Rename(s, sender, HandleSave(v, connected).sent.value).out[0].message;
      reply.message != Some(ElysiaServer.EmptyNameMessage) || reply.success
  {
    var name := HandleSave(v, connected).sent.value;
    var reply := ElysiaServer.Rename(s, sender, name).out[0].message;
    assert !Text.IsBlank(name);
    if !reply.success {
      if Protocol.NameTaken(s.players, name) {
        assert reply.message == Some(ElysiaServer.NameTakenMessage);
      } else {
        assert reply.message == Some(ElysiaServer.NotFoundMessage);
      }
    }
  }
}
