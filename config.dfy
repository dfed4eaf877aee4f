/**
 * The interactive `config` form: two text inputs (base URL and API key), a
 * focus index that cycles between them, and Enter that either moves the
 * focus on or saves both settings. Saving goes through the configuration
 * store, given as a parameter that answers each (key, value) write.
 */
module Config {
  import opened Wrappers

  const Title := "Canvas CLI Configuration"
  const BaseUrlLimit: nat := 150
  const ApiKeyLimit: nat := 100

  /** What the form keeps of a bubbles text input: its text, whether it has focus, its length limit. */
  datatype TextInput = TextInput(value: string, focused: bool, charLimit: nat)

  /** Key events of the form; OtherKey is any key the form passes on to the inputs. */
  datatype Key = CtrlC | Esc | Tab | ShiftTab | Up | Down | Enter | OtherKey

  /** Quit ends the program; Focus is the batch of focus commands returned after a focus change. */
  datatype Cmd = NoCmd | Quit | Focus

  datatype ConfigView = Saved | ErrorView(message: string) | Form(title: string, baseUrl: TextInput, apiKey: TextInput)

  /** The index after tab or down: one more, wrapping from the last input to the first. */
  function FocusNext(i: int, n: nat): (j: int)
    requires 0 <= i < n
    ensures 0 <= j < n
    ensures j == (i + 1) % n
  {
    if i + 1 >= n then 0 else i + 1
  }

  /** The index after shift+tab or up: one less, wrapping from the first input to the last. */
  function FocusPrev(i: int, n: nat): (j: int)
    requires 0 <= i < n
    ensures 0 <= j < n
    ensures j == (i - 1 + n) % n
  {
    if i - 1 < 0 then n - 1 else i - 1
  }

  /** Down after up, and up after down, come back to the same input. */
  lemma FocusNextPrev(i: int, n: nat)
    requires 0 <= i < n
    ensures FocusNext(FocusPrev(i, n), n) == i
    ensures FocusPrev(FocusNext(i, n), n) == i
  {
  }

  /** With the form's two inputs, two presses of tab return to where they started. */
  lemma TwoTabsCycle(i: int)
    requires 0 <= i < 2
    ensures FocusNext(FocusNext(i, 2), 2) == i && FocusPrev(FocusPrev(i, 2), 2) == i
    ensures FocusNext(i, 2) != i
  {
  }

  /** ConfigModel: the form's state, updated in place by each key event. */
  class ConfigModel {
    const inputs: array<TextInput>
    var focusIndex: int
    var done: bool
    var err: Option<string>
    const title: string
    /** Update has returned tea.Quit; the event loop delivers no further messages. */
    ghost var quit: bool

    /** Two inputs, the focus index on one of them, and exactly that input focused. */
    ghost predicate Valid()
      reads this, inputs
    {
      && inputs.Length == 2
      && 0 <= focusIndex < inputs.Length
      && (forall i :: 0 <= i < inputs.Length ==> (inputs[i].focused <==> i == focusIndex))
      && (done ==> quit)
    }

    /** The form runConfig opens, filled with the stored base URL and API key, the base URL focused. */
    constructor (baseUrl: string, apiKey: string)
      ensures Valid() && fresh(inputs) && !quit
      ensures inputs[0] == TextInput(baseUrl, true, BaseUrlLimit)
      ensures inputs[1] == TextInput(apiKey, false, ApiKeyLimit)
      ensures focusIndex == 0 && !done && err == None && title == Title
    {
      inputs := new TextInput[2][TextInput(baseUrl, true, BaseUrlLimit), TextInput(apiKey, false, ApiKeyLimit)];
      focusIndex := 0;
      done := false;
      err := None;
      title := Title;
      quit := false;
    }

    /** Focus the input at focusIndex and blur every other one, leaving their text alone. */
    method Refocus()
      requires 0 <= focusIndex < inputs.Length
      modifies inputs
      ensures forall i :: 0 <= i < inputs.Length ==> inputs[i] == old(inputs[i]).(focused := i == focusIndex)
    {
      for i := 0 to inputs.Length
        invariant forall j :: 0 <= j < i ==> inputs[j] == old(inputs[j]).(focused := j == focusIndex)
        invariant forall j :: i <= j < inputs.Length ==> inputs[j] == old(inputs[j])
      {
        if i == focusIndex {
          inputs[i] := inputs[i].(focused := true);
        } else {
          inputs[i] := inputs[i].(focused := false);
        }
      }
    }

    /**
     * One key event. `save` is what the configuration store answers when a
     * key is written (None on success); `saves` logs the writes attempted.
     */
    method Update(key: Key, save: (string, string) -> Option<string>)
      returns (cmd: Cmd, ghost saves: seq<(string, string)>)
      requires Valid() && !quit
      modifies this`focusIndex, this`done, this`err, this`quit, inputs
      ensures Valid()
      ensures forall i :: 0 <= i < inputs.Length ==> inputs[i] == old(inputs[i]).(focused := i == focusIndex)
      ensures (key.CtrlC? || key.Esc?) ==>
                cmd == Quit && quit && !done && err == old(err) && focusIndex == old(focusIndex) && saves == []
      ensures (key.Tab? || key.Down?) ==>
                cmd == Focus && !quit && !done && err == old(err) &&
                focusIndex == FocusNext(old(focusIndex), inputs.Length) && saves == []
      ensures (key.ShiftTab? || key.Up?) ==>
                cmd == Focus && !quit && !done && err == old(err) &&
                focusIndex == FocusPrev(old(focusIndex), inputs.Length) && saves == []
      ensures key.OtherKey? ==> cmd == NoCmd && !quit && !done && err == old(err) && focusIndex == old(focusIndex) && saves == []
      ensures key.Enter? && old(focusIndex) < inputs.Length - 1 ==>
                cmd == Focus && !quit && !done && err == old(err) && focusIndex == old(focusIndex) + 1 && saves == []
      ensures key.Enter? && old(focusIndex) == inputs.Length - 1 ==>
                var first := save("base_url", inputs[0].value);
                var second := save("api_key", inputs[1].value);
                && focusIndex == old(focusIndex)
                && (first.Some? ==>
                      saves == [("base_url", inputs[0].value)] && err == first && !done && !quit && cmd == NoCmd)
                && (first.None? ==>
                      saves == [("base_url", inputs[0].value), ("api_key", inputs[1].value)])
                && (first.None? && second.Some? ==> err == second && !done && !quit && cmd == NoCmd)
                && (first.None? && second.None? ==> err == old(err) && done && quit && cmd == Quit)
    {
      saves := [];
      cmd := NoCmd;
      match key
      case CtrlC | Esc =>
        cmd := Quit;
        quit := true;
      case OtherKey =>
      case Enter =>
        if focusIndex == inputs.Length - 1 {
          saves := saves + [("base_url", inputs[0].value)];
          var e := save("base_url", inputs[0].value);
          if e.Some? {
            err := e;
            return NoCmd, saves;
          }
          saves := saves + [("api_key", inputs[1].value)];
          e := save("api_key", inputs[1].value);
          if e.Some? {
            err := e;
            return NoCmd, saves;
          }
          done := true;
          quit := true;
          return Quit, saves;
        }
        focusIndex := focusIndex + 1;
        Refocus();
        cmd := Focus;
      case Up | ShiftTab =>
        focusIndex := focusIndex - 1;
        if focusIndex < 0 {
          focusIndex := inputs.Length - 1;
        }
        Refocus();
        cmd := Focus;
      case Tab | Down =>
        focusIndex := focusIndex + 1;
        if focusIndex >= inputs.Length {
          focusIndex := 0;
        }
        Refocus();
        cmd := Focus;
    }

    /** The success text once saved, else the last save error, else the form; done wins over an error. */
    method View() returns (v: ConfigView)
      requires Valid()
      ensures done ==> v == Saved
      ensures !done && err.Some? ==> v == ErrorView(err.value)
      ensures !done && err.None? ==> v == Form(title, inputs[0], inputs[1])
    {
      if done {
        return Saved;
      }
      if err.Some? {
        return ErrorView(err.value);
      }
      v := Form(title, inputs[0], inputs[1]);
    }
  }
}
