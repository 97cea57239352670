/** The interactive typewriter: it types the current item of the selected
    category, then waits for Enter; Enter (after a short press animation)
    moves to the next item of the category, wrapping around; choosing a
    category from the dropdown starts that category from its first item.
    Each timeout firing, key press and click is one event. */
module TypewriterShortcut {
  import opened Wrappers
  import opened Text
  import opened ConfigTypes
  import opened Defaults

  /** The category selected at mount. */
  const InitialCategory := "detection"

  /** `categories.find(c => c.id === id)`: the position of the first
      category with that id. */
  function FindCategory(cats: seq<Category>, id: string): (r: Option<nat>)
    ensures r.Some? ==> r.value < |cats| && cats[r.value].id == id
    ensures r.Some? ==> forall j :: 0 <= j < r.value ==> cats[j].id != id
    ensures r.None? ==> forall j :: 0 <= j < |cats| ==> cats[j].id != id
    decreases |cats|
  {
    if |cats| == 0 then None
    else if cats[0].id == id then Some(0)
    else
      match FindCategory(cats[1..], id)
      case None => None
      case Some(j) => Some(j + 1)
  }

  /** `config?.interactiveTypewriter?.categories || defaults`: a
      categories array, even an empty one, is used as it is. */
  function CategoriesOf(c: Config): (cats: seq<Category>)
    ensures c.interactiveTypewriter.Some? && c.interactiveTypewriter.value.categories.Some? ==>
              cats == c.interactiveTypewriter.value.categories.value
    ensures c.interactiveTypewriter.None? || c.interactiveTypewriter.value.categories.None? ==>
              cats == DefaultCategories
  {
    if c.interactiveTypewriter.Some? && c.interactiveTypewriter.value.categories.Some? then
      c.interactiveTypewriter.value.categories.value
    else DefaultCategories
  }

  /** The initially selected category exists among the default categories:
      it is the first one. */
  lemma InitialCategoryFound()
    ensures FindCategory(DefaultCategories, InitialCategory) == Some(0)
  {
    DefaultCategoriesWellFormed();
  }

  /** Rendering the component with configuration `c`:
      `categories.find(...)!` throws unless some category has the
      selected id, so a configuration whose categories lack
      `detection` (an empty list, say, which `||` keeps) fails to mount. */
  function MountCategories(c: Config): (r: Result<seq<Category>, string>)
    ensures r.Ok? <==> FindCategory(CategoriesOf(c), InitialCategory).Some?
    ensures r.Ok? ==> r.value == CategoriesOf(c)
  {
    var cats := CategoriesOf(c);
    if FindCategory(cats, InitialCategory).Some? then Ok(cats)
    else Err("Cannot read properties of undefined (reading 'items')")
  }

  /** Without its own categories a configuration mounts on the defaults. */
  lemma DefaultCategoriesMount(c: Config)
    requires c.interactiveTypewriter.None? || c.interactiveTypewriter.value.categories.None?
    ensures MountCategories(c) == Ok(DefaultCategories)
  {
    InitialCategoryFound();
  }

  /** An empty categories list is kept by the fallback and fails to mount. */
  lemma EmptyCategoriesFail(c: Config)
    requires c.interactiveTypewriter.Some? && c.interactiveTypewriter.value.categories == Some([])
    ensures MountCategories(c).Err?
  {
  }

  /** The items of the category with id `id`, which must exist (the source
      dereferences the lookup's result unchecked). */
  function ItemsOf(cats: seq<Category>, id: string): seq<MenuItem>
    requires FindCategory(cats, id).Some?
  {
    cats[FindCategory(cats, id).value].items
  }

  /** A pending end of the Enter press animation: the category it was
      scheduled in and the item index it will move to. */
  datatype Completion = Completion(category: string, next: nat)

  /** The component's state variables, the pending hint timer and the
      pending Enter completions. `showHint` is `showEnterHint`, a flag the
      render never reads. */
  datatype State = State(
    selected: string,
    index: nat,
    text: string,
    isTyping: bool,
    isWaiting: bool,
    showHint: bool,
    isEnterPressed: bool,
    dropdownOpen: bool,
    hintPending: bool,
    completions: seq<Completion>)

  const Initial := State(InitialCategory, 0, "", true, false, false, false, false, false, [])

  /** The events: a typing-effect run whose timeout fires, the hint timer,
      a key press, the end of an Enter press animation, a click on the
      `k`-th category of the dropdown, and a click on the dropdown
      button. */
  datatype Event = TypeTick | HintTimer | KeyPress(key: string) | EnterTimer | Select(k: nat) | ToggleDropdown

  /** An event can be delivered: the selected category exists, and a
      category click names a listed category. */
  predicate Enabled(cats: seq<Category>, e: Event, s: State) {
    FindCategory(cats, s.selected).Some? && (e.Select? ==> e.k < |cats|)
  }

  /** The typing effect, as the source writes it. It does nothing unless
      typing and not waiting, or without a current item. Short of the
      item's text it shows one more character; at full length it stops
      typing and waits for Enter. The hint timeout it schedules there is
      cleared again by the effect's own cleanup, because the same run
      changes `isTyping` and `isWaitingForEnter`, which are among the
      effect's dependencies: no hint timer is left pending. */
  function TypeAsWritten(cats: seq<Category>, s: State): (r: State)
    requires FindCategory(cats, s.selected).Some?
    ensures var items := ItemsOf(cats, s.selected);
            if !s.isTyping || s.isWaiting || s.index >= |items| then r == s
            else if |s.text| < |items[s.index].text| then r == s.(text := items[s.index].text[..|s.text| + 1])
            else r == s.(isTyping := false, isWaiting := true)
    ensures r.hintPending == s.hintPending && r.showHint == s.showHint
  {
    var items := ItemsOf(cats, s.selected);
    if !s.isTyping || s.isWaiting || s.index >= |items| then s
    else
      var t := items[s.index].text;
      if |s.text| < |t| then s.(text := t[..|s.text| + 1])
      else s.(isTyping := false, isWaiting := true)
  }

  /** The typing effect as intended: the same, except that the hint timer
      scheduled on reaching full length stays pending. */
  function Type(cats: seq<Category>, s: State): (r: State)
    requires FindCategory(cats, s.selected).Some?
    ensures var items := ItemsOf(cats, s.selected);
            if !s.isTyping || s.isWaiting || s.index >= |items| then r == s
            else if |s.text| < |items[s.index].text| then r == s.(text := items[s.index].text[..|s.text| + 1])
            else r == s.(isTyping := false, isWaiting := true, hintPending := true)
  {
    var t := TypeAsWritten(cats, s);
    if t.isWaiting && !s.isWaiting then t.(hintPending := true) else t
  }

  /** The hint timer fires: `showEnterHint` becomes true. */
  function Hint(s: State): (r: State)
    ensures s.hintPending ==> r == s.(showHint := true, hintPending := false)
    ensures !s.hintPending ==> r == s
  {
    if s.hintPending then s.(showHint := true, hintPending := false) else s
  }

  /** The key-press listener: only Enter calls `handleEnter`, which only
      acts while waiting: it shows the press and schedules the move to the
      next item of the current category, wrapping after the last. */
  function Press(cats: seq<Category>, key: string, s: State): (r: State)
    requires FindCategory(cats, s.selected).Some?
    requires s.isWaiting ==> s.index < |ItemsOf(cats, s.selected)|
    ensures key != "Enter" || !s.isWaiting ==> r == s
    ensures key == "Enter" && s.isWaiting ==>
              r == s.(isEnterPressed := true,
                      completions := s.completions + [Completion(s.selected, (s.index + 1) % |ItemsOf(cats, s.selected)|)])
  {
    if key == "Enter" && s.isWaiting then
      s.(isEnterPressed := true,
         completions := s.completions + [Completion(s.selected, (s.index + 1) % |ItemsOf(cats, s.selected)|)])
    else s
  }

  /** The first pending Enter completion fires, as the source writes it:
      it moves to the index it captured, whatever category is selected
      now, clears the text and starts typing. */
  function CompleteEnterAsWritten(s: State): (r: State)
    ensures |s.completions| == 0 ==> r == s
    ensures |s.completions| > 0 ==>
              && r.selected == s.selected && r.index == s.completions[0].next
              && r.text == "" && r.isTyping && !r.isWaiting && !r.showHint && !r.isEnterPressed
              && r.completions == s.completions[1..]
  {
    if |s.completions| == 0 then s
    else
      s.(isEnterPressed := false, isWaiting := false, showHint := false, hintPending := false,
         index := s.completions[0].next, text := "", isTyping := true, completions := s.completions[1..])
  }

  /** The first pending Enter completion fires, as intended: a completion
      scheduled in another category than the selected one is dropped. */
  function CompleteEnter(s: State): (r: State)
    ensures |s.completions| > 0 && s.completions[0].category == s.selected ==>
              r == CompleteEnterAsWritten(s)
    ensures |s.completions| > 0 && s.completions[0].category != s.selected ==>
              r == s.(completions := s.completions[1..])
    ensures |s.completions| == 0 ==> r == s
  {
    if |s.completions| > 0 && s.completions[0].category != s.selected then
      s.(completions := s.completions[1..])
    else CompleteEnterAsWritten(s)
  }

  /** A click on the `k`-th category: it becomes the selected one, the
      dropdown closes, and typing restarts from its first item. Pending
      Enter completions are not cancelled. */
  function SelectCategory(cats: seq<Category>, k: nat, s: State): (r: State)
    requires k < |cats|
    ensures r.selected == cats[k].id && !r.dropdownOpen && r.index == 0 && r.text == ""
    ensures r.isTyping && !r.isWaiting && !r.showHint && !r.hintPending
    ensures r.isEnterPressed == s.isEnterPressed && r.completions == s.completions
  {
    s.(selected := cats[k].id, dropdownOpen := false, index := 0, text := "", isTyping := true,
       isWaiting := false, showHint := false, hintPending := false)
  }

  /** One event, as the source is written. */
  function StepAsWritten(cats: seq<Category>, e: Event, s: State): (r: State)
    requires Enabled(cats, e, s)
    requires s.isWaiting ==> s.index < |ItemsOf(cats, s.selected)|
    ensures !e.Select? ==> r.selected == s.selected
    ensures e.Select? ==> r.selected == cats[e.k].id
    ensures !e.ToggleDropdown? && !e.Select? ==> r.dropdownOpen == s.dropdownOpen
  {
    match e
    case TypeTick => TypeAsWritten(cats, s)
    case HintTimer => Hint(s)
    case KeyPress(key) => Press(cats, key, s)
    case EnterTimer => CompleteEnterAsWritten(s)
    case Select(k) => SelectCategory(cats, k, s)
    case ToggleDropdown => s.(dropdownOpen := !s.dropdownOpen)
  }

  /** One event, as intended. */
  function Step(cats: seq<Category>, e: Event, s: State): (r: State)
    requires Enabled(cats, e, s)
    requires s.isWaiting ==> s.index < |ItemsOf(cats, s.selected)|
    ensures !e.Select? ==> r.selected == s.selected
    ensures e.Select? ==> r.selected == cats[e.k].id
    ensures !e.ToggleDropdown? && !e.Select? ==> r.dropdownOpen == s.dropdownOpen
  {
    match e
    case TypeTick => Type(cats, s)
    case HintTimer => Hint(s)
    case KeyPress(key) => Press(cats, key, s)
    case EnterTimer => CompleteEnter(s)
    case Select(k) => SelectCategory(cats, k, s)
    case ToggleDropdown => s.(dropdownOpen := !s.dropdownOpen)
  }

  // ---------------------------------------------------------------------
  // Finding: `showEnterHint` never becomes true

  /** As written, no event ever sets `showEnterHint`: nothing leaves a
      hint timer pending, so from the initial state (flag false, no timer)
      `showEnterHint` never becomes true. */
  lemma HintNeverShownAsWritten(cats: seq<Category>, e: Event, s: State)
    requires Enabled(cats, e, s)
    requires s.isWaiting ==> s.index < |ItemsOf(cats, s.selected)|
    requires !s.showHint && !s.hintPending
    ensures !StepAsWritten(cats, e, s).showHint && !StepAsWritten(cats, e, s).hintPending
  {
  }

  /** As intended, finishing an item's text leaves the hint timer
      pending, and its firing makes `showEnterHint` true while still
      waiting for Enter. */
  lemma HintShownAfterTyping(cats: seq<Category>, s: State)
    requires FindCategory(cats, s.selected).Some?
    requires s.isTyping && !s.isWaiting && s.index < |ItemsOf(cats, s.selected)|
    requires s.text == ItemsOf(cats, s.selected)[s.index].text
    ensures var t := Step(cats, TypeTick, s);
            t.isWaiting && !t.isTyping && t.hintPending
    ensures var u := Step(cats, HintTimer, Step(cats, TypeTick, s));
            u.showHint && u.isWaiting && u.text == s.text
  {
  }

  // ---------------------------------------------------------------------
  // The invariant

  /** The items of a pending completion's category exist, and its target
      index names one of them. */
  predicate CompletionValid(cats: seq<Category>, c: Completion) {
    FindCategory(cats, c.category).Some? && c.next < |ItemsOf(cats, c.category)|
  }

  /** The selected category exists and its current item exists; the shown
      text is a prefix of that item's text, all of it while waiting; the
      hint and its timer only while waiting; every pending completion
      targets an item of its own category. */
  predicate Inv(cats: seq<Category>, s: State) {
    && FindCategory(cats, s.selected).Some?
    && var items := ItemsOf(cats, s.selected);
    && s.index < |items|
    && IsPrefix(s.text, items[s.index].text)
    && (s.isWaiting ==> !s.isTyping && s.text == items[s.index].text)
    && (s.showHint || s.hintPending ==> s.isWaiting)
    && (forall i :: 0 <= i < |s.completions| ==> CompletionValid(cats, s.completions[i]))
  }

  /** The initial state is valid for any categories that mount and all
      have items. */
  lemma InitialValid(cats: seq<Category>)
    requires FindCategory(cats, InitialCategory).Some? && NoEmptyCategory(cats)
    ensures Inv(cats, Initial)
  {
    var k := FindCategory(cats, InitialCategory).value;
    assert |cats[k].items| > 0;
  }

  /** The category found for the `k`-th category's id has items, when
      every category has. */
  lemma SelectedHasItems(cats: seq<Category>, k: nat)
    requires k < |cats| && NoEmptyCategory(cats)
    ensures FindCategory(cats, cats[k].id).Some? && |ItemsOf(cats, cats[k].id)| > 0
  {
  }

  /** Every intended event keeps the invariant, given categories that all
      have items: in particular the item index always names an item of
      the selected category and the shown text is always a prefix of that
      item's text. */
  lemma {:induction false} StepKeepsInv(cats: seq<Category>, e: Event, s: State)
    requires NoEmptyCategory(cats) && Inv(cats, s) && (e.Select? ==> e.k < |cats|)
    ensures Enabled(cats, e, s)
    ensures Inv(cats, Step(cats, e, s))
  {
    var items := ItemsOf(cats, s.selected);
    match e
    case TypeTick =>
      if s.isTyping && !s.isWaiting && |s.text| < |items[s.index].text| {
        var t := items[s.index].text;
        assert t[..|s.text| + 1][..|s.text| + 1] == t[..|s.text| + 1];
      } else if s.isTyping && !s.isWaiting {
        assert s.text == items[s.index].text;
      }
    case HintTimer =>
    case KeyPress(key) =>
      var r := Step(cats, e, s);
      if key == "Enter" && s.isWaiting {
        assert CompletionValid(cats, r.completions[|r.completions| - 1]);
      }
    case EnterTimer =>
      var r := Step(cats, e, s);
      if |s.completions| > 0 {
        assert CompletionValid(cats, s.completions[0]);
        assert forall i :: 0 <= i < |r.completions| ==> r.completions[i] == s.completions[i + 1];
      }
    case Select(k) =>
      SelectedHasItems(cats, k);
    case ToggleDropdown =>
  }

  // ---------------------------------------------------------------------
  // Finding: a stale Enter completion after a category switch

  /** The state waiting for Enter on the third default "detection" item. */
  const WaitingOnMoon :=
    Initial.(index := 2, text := "detect: moon", isTyping := false, isWaiting := true)

  /** As written: Enter on the third of the four "detection" items, then
      a click on "Visual Q&A" (three items) before the press animation
      ends, then the completion: the index becomes 3, which names no
      item, and from then on typing, Enter and the timers all do nothing,
      so the menu is stuck with an empty text until another category is
      chosen. */
  lemma StaleCompletionAsWritten()
    ensures Inv(DefaultCategories, WaitingOnMoon)
    ensures var s1 := StepAsWritten(DefaultCategories, KeyPress("Enter"), WaitingOnMoon);
            var s2 := StepAsWritten(DefaultCategories, Select(1), s1);
            var s3 := StepAsWritten(DefaultCategories, EnterTimer, s2);
            && s3.selected == "vqa"
            && s3.index == 3 && s3.index >= |ItemsOf(DefaultCategories, s3.selected)|
            && s3.text == "" && s3.isTyping && !s3.isWaiting
            && StepAsWritten(DefaultCategories, TypeTick, s3) == s3
            && StepAsWritten(DefaultCategories, KeyPress("Enter"), s3) == s3
            && StepAsWritten(DefaultCategories, EnterTimer, s3) == s3
            && StepAsWritten(DefaultCategories, HintTimer, s3) == s3
  {
    DefaultCategoriesWellFormed();
    InitialCategoryFound();
    InitialValid(DefaultCategories);
    assert DefaultCategories[0].items[2].text == "detect: moon";
    assert FindCategory(DefaultCategories, "vqa") == Some(1) by {
      assert DefaultCategories[0].id[0] == 'd';
      assert DefaultCategories[1].id == "vqa";
    }
  }

  // ---------------------------------------------------------------------
  // The component

  /** The component's state variables over the categories it was mounted
      with. Its methods run the intended steps (`Step`): a typing run
      that reaches full length leaves the hint timer pending, and a
      completion scheduled under another category is dropped. The code as
      written is `StepAsWritten`; the two differences are the findings
      above. */
  class TypewriterMenuWithShortcut {
    const categories: seq<Category>
    var selectedCategory: string
    var currentItemIndex: nat
    var displayText: string
    var isTyping: bool
    var isWaitingForEnter: bool
    var showEnterHint: bool
    var isEnterPressed: bool
    var isDropdownOpen: bool
    var hintPending: bool
    var completions: seq<Completion>

    function View(): State
      reads this
    {
      State(selectedCategory, currentItemIndex, displayText, isTyping, isWaitingForEnter, showEnterHint,
            isEnterPressed, isDropdownOpen, hintPending, completions)
    }

    /** The categories all have items, and the state keeps the invariant. */
    predicate Valid()
      reads this
    {
      NoEmptyCategory(categories) && Inv(categories, View())
    }

    /** Mounting with configuration `c`, whose categories mount and all
        have items. */
    constructor (c: Config)
      requires MountCategories(c).Ok? && NoEmptyCategory(CategoriesOf(c))
      ensures categories == CategoriesOf(c) && View() == Initial
      ensures Valid()
    {
      categories := CategoriesOf(c);
      selectedCategory, currentItemIndex, displayText := InitialCategory, 0, "";
      isTyping, isWaitingForEnter, showEnterHint, isEnterPressed := true, false, false, false;
      isDropdownOpen, hintPending, completions := false, false, [];
      new;
      InitialValid(categories);
    }

    /** The typing effect's timeout fires (or, at full length, the effect
        run itself). */
    method TypeTick()
      requires Valid()
      modifies this
      ensures View() == Step(categories, Event.TypeTick, old(View()))
      ensures Valid()
    {
      StepKeepsInv(categories, Event.TypeTick, View());
      if isTyping && !isWaitingForEnter {
        var t := ItemsOf(categories, selectedCategory)[currentItemIndex].text;
        if |displayText| < |t| {
          displayText := t[..|displayText| + 1];
        } else {
          isTyping := false;
          isWaitingForEnter := true;
          hintPending := true;
        }
      }
    }

    /** The hint timer fires. */
    method HintTimerFires()
      requires Valid()
      modifies this
      ensures View() == Step(categories, Event.HintTimer, old(View()))
      ensures Valid()
    {
      StepKeepsInv(categories, Event.HintTimer, View());
      if hintPending {
        showEnterHint := true;
        hintPending := false;
      }
    }

    /** A key press on the document. A click on the Enter button calls
        the same `handleEnter`, so it is `KeyPress("Enter")`. */
    method KeyPress(key: string)
      requires Valid()
      modifies this
      ensures View() == Step(categories, Event.KeyPress(key), old(View()))
      ensures Valid()
    {
      StepKeepsInv(categories, Event.KeyPress(key), View());
      if key == "Enter" && isWaitingForEnter {
        isEnterPressed := true;
        var n := |ItemsOf(categories, selectedCategory)|;
        completions := completions + [Completion(selectedCategory, (currentItemIndex + 1) % n)];
      }
    }

    /** The end of the first pending Enter press animation. */
    method EnterTimerFires()
      requires Valid()
      modifies this
      ensures View() == Step(categories, Event.EnterTimer, old(View()))
      ensures Valid()
    {
      StepKeepsInv(categories, Event.EnterTimer, View());
      if |completions| > 0 {
        var c := completions[0];
        completions := completions[1..];
        if c.category == selectedCategory {
          isEnterPressed, isWaitingForEnter, showEnterHint, hintPending := false, false, false, false;
          currentItemIndex := c.next;
          displayText := "";
          isTyping := true;
        }
      }
    }

    /** A click on the `k`-th category of the dropdown. */
    method SelectCategory(k: nat)
      requires Valid() && k < |categories|
      modifies this
      ensures View() == Step(categories, Event.Select(k), old(View()))
      ensures Valid()
    {
      StepKeepsInv(categories, Event.Select(k), View());
      selectedCategory := categories[k].id;
      isDropdownOpen := false;
      currentItemIndex := 0;
      displayText := "";
      isTyping := true;
      isWaitingForEnter, showEnterHint, hintPending := false, false, false;
    }

    /** A click on the dropdown button. */
    method ToggleDropdown()
      requires Valid()
      modifies this
      ensures View() == Step(categories, Event.ToggleDropdown, old(View()))
      ensures Valid()
    {
      StepKeepsInv(categories, Event.ToggleDropdown, View());
      isDropdownOpen := !isDropdownOpen;
    }
  }
}
