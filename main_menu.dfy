/**
 * The main menu's option list (src/main_menu.rs): a vector of labelled
 * options of which at most one is selected, cycled up and down with the
 * gamepad and confirmed with the B button. The gamepad is abstracted as the
 * three `just_pressed` flags the menu reads.
 */
module MainMenu {
  import opened Optional

  datatype MenuOption = MenuOption(text: string, positionX: int, positionY: int, isSelected: bool)

  datatype CycleDirection = Up | Down

  /** `options.iter().position(|opt| opt.is_selected)`: the first selected option, if any. */
  function FirstSelected(options: seq<MenuOption>): (r: Option<nat>)
    ensures r.Some? ==> r.value < |options| && options[r.value].isSelected
    ensures r.Some? ==> forall k :: 0 <= k < r.value ==> !options[k].isSelected
    ensures r.None? <==> forall k :: 0 <= k < |options| ==> !options[k].isSelected
  {
    if options == [] then None
    else if options[0].isSelected then Some(0)
    else
      match FirstSelected(options[1..])
      case None => None
      case Some(i) => Some(i + 1)
  }

  /**
   * The index `cycle_option` selects on a list of `len > 0` options, given
   * the currently selected one.
   */
  function NextIndex(current: Option<nat>, len: nat, direction: CycleDirection): (r: nat)
    requires 0 < len && (current.Some? ==> current.value < len)
    ensures r < len
    ensures direction == Down && current.Some? && current.value + 1 < len ==> r == current.value + 1
    ensures direction == Down && current.Some? && current.value + 1 == len ==> r == 0
    ensures direction == Down && current.None? ==> r == 0
    ensures direction == Up && current.Some? && 0 < current.value ==> r == current.value - 1
    ensures direction == Up && (current.None? || current.value == 0) ==> r == len - 1
  {
    match direction
    case Down => if current.Some? then (current.value + 1) % len else 0
    case Up => if current.None? || current.value == 0 then len - 1 else current.value - 1
  }

  /** Moving up undoes moving down and vice versa. */
  lemma UpUndoesDown(i: nat, len: nat)
    requires i < len
    ensures NextIndex(Some(NextIndex(Some(i), len, Down)), len, Up) == i
    ensures NextIndex(Some(NextIndex(Some(i), len, Up)), len, Down) == i
  {
  }

  /** Exactly the option at `i` is selected. */
  predicate OnlySelected(options: seq<MenuOption>, i: nat) {
    && i < |options|
    && forall k :: 0 <= k < |options| ==> (options[k].isSelected <==> k == i)
  }

  /** The two lists differ at most in their selection flags. */
  predicate SameLayout(a: seq<MenuOption>, b: seq<MenuOption>) {
    && |a| == |b|
    && forall k :: 0 <= k < |a| ==>
         a[k].text == b[k].text && a[k].positionX == b[k].positionX && a[k].positionY == b[k].positionY
  }

  /** The list `cycle_option` leaves behind. */
  function Cycled(options: seq<MenuOption>, direction: CycleDirection): (r: seq<MenuOption>)
    ensures SameLayout(options, r)
    ensures options == [] ==> r == options
    ensures options != [] ==> OnlySelected(r, NextIndex(FirstSelected(options), |options|, direction))
  {
    if options == [] then options
    else
      var next := NextIndex(FirstSelected(options), |options|, direction);
      seq(|options|, k requires 0 <= k < |options| => options[k].(isSelected := k == next))
  }

  /** With exactly one option selected, that option is the first selected one. */
  lemma OnlySelectedIsFirst(options: seq<MenuOption>, i: nat)
    requires OnlySelected(options, i)
    ensures FirstSelected(options) == Some(i)
  {
    assert options[i].isSelected;
  }

  function Opposite(direction: CycleDirection): CycleDirection {
    if direction == Up then Down else Up
  }

  /**
   * With one option selected, cycling one way and then the other restores
   * the list.
   */
  lemma CycleRoundTrip(options: seq<MenuOption>, i: nat, direction: CycleDirection)
    requires OnlySelected(options, i)
    ensures Cycled(Cycled(options, direction), Opposite(direction)) == options
  {
    var len := |options|;
    OnlySelectedIsFirst(options, i);
    var once := Cycled(options, direction);
    var next := NextIndex(Some(i), len, direction);
    OnlySelectedIsFirst(once, next);
    assert FirstSelected(once) == Some(next);
    UpUndoesDown(i, len);
    var twice := Cycled(once, Opposite(direction));
    assert OnlySelected(twice, i);
    assert forall k :: 0 <= k < len ==> twice[k] == options[k];
  }

  /** `position(|opt| opt.is_selected)` as a scan over the options. */
  method Position(options: array<MenuOption>) returns (r: Option<nat>)
    ensures r == FirstSelected(options[..])
  {
    for idx := 0 to options.Length
      invariant forall k :: 0 <= k < idx ==> !options[k].isSelected
    {
      if options[idx].isSelected {
        return Some(idx);
      }
    }
    return None;
  }

  /**
   * `cycle_option`: on a non-empty list, clears every selection and
   * selects the option after (Down) or before (Up) the one that was
   * selected, wrapping around; an empty list is left alone.
   */
  method CycleOption(options: array<MenuOption>, direction: CycleDirection)
    modifies options
    ensures options[..] == Cycled(old(options[..]), direction)
  {
    if options.Length == 0 {
      return;
    }
    var currentIndex := Position(options);
    for k := 0 to options.Length
      invariant forall j :: 0 <= j < k ==> options[j] == old(options[j]).(isSelected := false)
      invariant forall j :: k <= j < options.Length ==> options[j] == old(options[j])
    {
      options[k] := options[k].(isSelected := false);
    }
    var nextIndex := NextIndex(currentIndex, options.Length, direction);
    options[nextIndex] := options[nextIndex].(isSelected := true);
  }

  /**
   * `get_main_menu_options`: START, Co-Op and Credits at x 63, stacked 30
   * apart from y 90, with only the first selected.
   */
  method GetMainMenuOptions() returns (options: seq<MenuOption>)
    ensures |options| == 3 && OnlySelected(options, 0)
    ensures options[0].text == "START" && options[1].text == "Co-Op" && options[2].text == "Credits"
    ensures forall k :: 0 <= k < 3 ==> options[k].positionX == 63 && options[k].positionY == 90 + 30 * k
  {
    var xCoord, yCoord, optionHeight := 63, 90, 30;
    var labels := ["START", "Co-Op", "Credits"];
    options := [];
    for idx := 0 to |labels|
      invariant |options| == idx
      invariant forall k :: 0 <= k < idx ==>
                  options[k] == MenuOption(labels[k], xCoord, yCoord + optionHeight * k, k == 0)
    {
      options := options + [MenuOption(labels[idx], xCoord, yCoord + optionHeight * idx, idx == 0)];
    }
  }

  /** The text `handle_input` returns on confirm: that of the first selected option, if any. */
  function Confirmed(options: seq<MenuOption>): (r: Option<string>)
    ensures r.Some? <==> exists k :: 0 <= k < |options| && options[k].isSelected
    ensures r.Some? ==> FirstSelected(options).Some? && r.value == options[FirstSelected(options).value].text
  {
    match FirstSelected(options)
    case None => None
    case Some(i) => Some(options[i].text)
  }

  /** With exactly one option selected, confirming yields its text. */
  lemma ConfirmOnlySelected(options: seq<MenuOption>, i: nat)
    requires OnlySelected(options, i)
    ensures Confirmed(options) == Some(options[i].text)
  {
    OnlySelectedIsFirst(options, i);
  }

  /**
   * The selection part of `handle_input`: cycle up if up was just pressed,
   * then down if down was, and on a B press return the selected text.
   */
  method HandleInput(options: array<MenuOption>, upJustPressed: bool, downJustPressed: bool,
                     bJustPressed: bool) returns (chosen: Option<string>)
    modifies options
    ensures var afterUp := if upJustPressed then Cycled(old(options[..]), Up) else old(options[..]);
            options[..] == if downJustPressed then Cycled(afterUp, Down) else afterUp
    ensures chosen == if bJustPressed then Confirmed(options[..]) else None
  {
    if upJustPressed {
      CycleOption(options, Up);
    }
    if downJustPressed {
      CycleOption(options, Down);
    }
    if bJustPressed {
      var selectedOption := Position(options);
      match selectedOption {
        case Some(idx) =>
          return Some(options[idx].text);
        case None =>
      }
    }
    return None;
  }
}
