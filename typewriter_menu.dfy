/** The looping typewriter menu: it types the current item's text one
    character per step, pauses, deletes it one character per step, then
    moves to the next item, wrapping around. Each step is one firing of
    the effect's timeout (or, for the move to the next item, the effect
    run itself). */
module TypewriterMenu {
  import opened ConfigTypes
  import opened Defaults
  import opened Text

  /** `config?.typewriterMenu?.items || defaultConfig.typewriterMenu.items`:
      an items array, even an empty one, is used as it is. */
  function MenuItemsOf(c: Config): (items: seq<MenuItem>)
    ensures c.typewriterMenu.Some? && c.typewriterMenu.value.items.Some? ==>
              items == c.typewriterMenu.value.items.value
    ensures c.typewriterMenu.None? || c.typewriterMenu.value.items.None? ==> items == DefaultMenuItems
  {
    if c.typewriterMenu.Some? && c.typewriterMenu.value.items.Some? then c.typewriterMenu.value.items.value
    else DefaultMenuItems
  }

  /** The component's state: the item index, whether it is deleting, and
      the shown text. */
  datatype State = State(index: nat, isDeleting: bool, text: string)

  const Initial := State(0, false, "")

  /** One step over the menu `items`. Nothing happens without a current
      item. Deleting an empty text moves to the next item modulo the item
      count; deleting otherwise drops the last character. Typing a text as
      long as the item's switches to deleting (after the pause); typing
      otherwise shows the item's text one character longer. */
  function Step(items: seq<MenuItem>, s: State): (r: State)
    ensures s.index >= |items| ==> r == s
    ensures s.index < |items| && s.isDeleting && s.text == "" ==>
              r == State((s.index + 1) % |items|, false, "")
    ensures s.index < |items| && s.isDeleting && s.text != "" ==>
              r == s.(text := s.text[..|s.text| - 1])
    ensures s.index < |items| && !s.isDeleting && |s.text| == |items[s.index].text| ==>
              r == s.(isDeleting := true)
    ensures s.index < |items| && !s.isDeleting && |s.text| < |items[s.index].text| ==>
              r == s.(text := items[s.index].text[..|s.text| + 1])
    ensures r.index < |items| <==> s.index < |items|
  {
    if s.index >= |items| then s
    else
      var t := items[s.index].text;
      if s.isDeleting then
        if |s.text| == 0 then State((s.index + 1) % |items|, false, "")
        else s.(text := s.text[..|s.text| - 1])
      else if |s.text| == |t| then s.(isDeleting := true)
      else s.(text := t[..if |s.text| + 1 <= |t| then |s.text| + 1 else |t|])
  }

  /** The shown text is a prefix of the current item's text whenever there
      is a current item. */
  predicate Inv(items: seq<MenuItem>, s: State) {
    s.index < |items| ==> IsPrefix(s.text, items[s.index].text)
  }

  /** Every step keeps the shown text a prefix of the current item's text
      and the index inside the list. */
  lemma StepKeepsInv(items: seq<MenuItem>, s: State)
    requires Inv(items, s)
    ensures Inv(items, Step(items, s))
  {
    if s.index < |items| {
      var t := items[s.index].text;
      if s.isDeleting && s.text != "" {
        assert t[..|s.text| - 1] == s.text[..|s.text| - 1];
      } else if !s.isDeleting && |s.text| < |t| {
        assert t[..|s.text| + 1][..|s.text| + 1] == t[..|s.text| + 1];
      } else if s.isDeleting {
        assert Step(items, s).text == "";
      }
    }
  }

  /** `n` steps. */
  function Steps(items: seq<MenuItem>, s: State, n: nat): State
    decreases n
  {
    if n == 0 then s else Steps(items, Step(items, s), n - 1)
  }

  /** Runs compose. */
  lemma {:induction false} StepsAdd(items: seq<MenuItem>, s: State, m: nat, n: nat)
    ensures Steps(items, s, m + n) == Steps(items, Steps(items, s, m), n)
    decreases m
  {
    if m > 0 {
      StepsAdd(items, Step(items, s), m - 1, n);
    }
  }

  /** Typing from a prefix of length `j` for `k` steps, without reaching
      the end, gives the prefix of length `j + k`. */
  lemma {:induction false} TypingSteps(items: seq<MenuItem>, i: nat, j: nat, k: nat)
    requires i < |items| && j + k <= |items[i].text|
    ensures Steps(items, State(i, false, items[i].text[..j]), k) == State(i, false, items[i].text[..j + k])
    decreases k
  {
    if k > 0 {
      var t := items[i].text;
      assert Step(items, State(i, false, t[..j])) == State(i, false, t[..j + 1]);
      TypingSteps(items, i, j + 1, k - 1);
    }
  }

  /** Deleting from a prefix of length `j` for `k <= j` steps gives the
      prefix of length `j - k`. */
  lemma {:induction false} DeletingSteps(items: seq<MenuItem>, i: nat, j: nat, k: nat)
    requires i < |items| && k <= j <= |items[i].text|
    ensures Steps(items, State(i, true, items[i].text[..j]), k) == State(i, true, items[i].text[..j - k])
    decreases k
  {
    if k > 0 {
      var t := items[i].text;
      assert t[..j][..j - 1] == t[..j - 1];
      assert Step(items, State(i, true, t[..j])) == State(i, true, t[..j - 1]);
      DeletingSteps(items, i, j - 1, k - 1);
    }
  }

  /** One full cycle: from an empty text on item `i`, `2|t| + 2` steps
      (type `|t|` characters, switch to deleting, delete `|t|`
      characters, move on) reach an empty text on the next item, wrapping
      after the last. */
  lemma {:induction false} Cycle(items: seq<MenuItem>, i: nat)
    requires i < |items|
    ensures var n := |items[i].text|;
            Steps(items, State(i, false, ""), 2 * n + 2) == State((i + 1) % |items|, false, "")
  {
    var t := items[i].text;
    var n := |t|;
    assert t[..0] == "" && t[..n] == t;
    TypingSteps(items, i, 0, n);
    StepsAdd(items, State(i, false, ""), n, 1);
    assert Steps(items, State(i, false, t), 1) == State(i, true, t);
    StepsAdd(items, State(i, false, ""), n + 1, n);
    DeletingSteps(items, i, n, n);
    StepsAdd(items, State(i, false, ""), 2 * n + 1, 1);
    assert Steps(items, State(i, true, ""), 1) == State((i + 1) % |items|, false, "");
  }

  /** The component's state variables. */
  class TypewriterMenuDemo {
    var currentItemIndex: nat
    var isDeleting: bool
    var displayText: string

    function View(): State
      reads this
    {
      State(currentItemIndex, isDeleting, displayText)
    }

    constructor ()
      ensures View() == Initial
    {
      currentItemIndex, isDeleting, displayText := 0, false, "";
    }

    /** One step over the current menu items. */
    method Tick(items: seq<MenuItem>)
      modifies this
      ensures View() == Step(items, old(View()))
      ensures Inv(items, old(View())) ==> Inv(items, View())
    {
      if Inv(items, View()) {
        StepKeepsInv(items, View());
      }
      if currentItemIndex < |items| {
        var t := items[currentItemIndex].text;
        if isDeleting {
          if |displayText| == 0 {
            isDeleting := false;
            currentItemIndex := (currentItemIndex + 1) % |items|;
          } else {
            displayText := displayText[..|displayText| - 1];
          }
        } else if |displayText| == |t| {
          isDeleting := true;
        } else {
          displayText := t[..if |displayText| + 1 <= |t| then |displayText| + 1 else |t|];
        }
      }
    }
  }
}
