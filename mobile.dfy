/** The mobile catalogue sequencer: for each item of each category it
    types the item's prompt one character per interval tick, shows a
    loading state, shows the result, then moves on to the next item or
    category, marking a category complete after its last item. Each
    interval tick and each timer firing is one step; real time is not
    modelled, only the delays the timers are scheduled with. */
module MobileSequencer {
  import opened Wrappers
  import opened Text

  datatype Item = Item(id: string, display: string, command: string, initialSrc: string, resultSrc: string)
  datatype Category = Category(id: string, name: string, items: seq<Item>)

  /** The page's typing interval, and the time from the end of typing to
      the move to the next item. */
  const TypingSpeed := 55
  const ProgressDuration := 5500
  /** How long the loading state lasts before the result is shown. */
  const LoadingDelay := 1500

  /** The page's own catalogue (it does not read the shared defaults). */
  const Catalog: seq<Category> := [
    Category("detection", "Detection", [
      Item("cars", "Find all cars", "detect: car", "/vehicles.mp4", "/cars_detect.mp4"),
      Item("trucks", "Locate all trucks", "detect: truck", "/vehicles.mp4", "/trucks_detect.mp4")]),
    Category("vqa", "Visual Q&A", [
      Item("gauge", "What temperature does the gauge read?", "The gauge reads 53 \U{00B0}C.",
           "@gauge.png", "@gauge.png"),
      Item("cyclist_color", "What color is the cyclist in the front?",
           "The cyclist in the front is wearing blue.", "@cyclist.jpg", "@cyclist.jpg"),
      Item("cyclist_count", "How many cyclists are there?", "There are four cyclists in the image.",
           "@cyclist.jpg", "@cyclist.jpg")]),
    Category("caption", "Captioning", [
      Item("1", "Describe this image (short)",
           "A shelf holds six wine bottles, including Merryvale, Napa Valley Sauvignon Blanc, and Chateau Dorado, with a cluster of grapes and a warm, inviting glow.",
           "@merry.avif", "@merry.avif")])
  ]

  /** Every category has at least one item. */
  predicate AllNonEmpty(cats: seq<Category>) {
    forall i :: 0 <= i < |cats| ==> |cats[i].items| > 0
  }

  /** The ids of the categories, in order. */
  function Ids(cats: seq<Category>): (ids: seq<string>)
    ensures |ids| == |cats|
    ensures forall i :: 0 <= i < |cats| ==> ids[i] == cats[i].id
  {
    seq(|cats|, i requires 0 <= i < |cats| => cats[i].id)
  }

  /** The page's catalogue has three non-empty categories with distinct ids. */
  lemma CatalogWellFormed()
    ensures |Catalog| == 3 && AllNonEmpty(Catalog)
    ensures Ids(Catalog) == ["detection", "vqa", "caption"]
    ensures forall i, j :: 0 <= i < j < |Catalog| ==> Catalog[i].id != Catalog[j].id
  {
    assert Catalog[0].id[0] == 'd' && Catalog[1].id[0] == 'v' && Catalog[2].id[0] == 'c';
  }

  // ---------------------------------------------------------------------
  // Media

  /** What `MediaPlayer` renders. */
  datatype Media = Image(path: string) | Video(path: string)

  /** A source with a leading `@` is an image at the rest of the source;
      any other source is a video at the source itself. */
  function Classify(src: string): (m: Media)
    ensures m.Image? <==> |src| > 0 && src[0] == '@'
    ensures m.Image? ==> src == "@" + m.path
    ensures m.Video? ==> m.path == src
  {
    if |src| > 0 && src[0] == '@' then Image(src[1..]) else Video(src)
  }

  /** The source that renders as `m`. */
  function SourceOf(m: Media): string {
    match m
    case Image(p) => "@" + p
    case Video(p) => p
  }

  /** Classification and `SourceOf` are inverse: every source is the
      source of its classification, and every image, and every video whose
      path does not itself start with `@`, is the classification of its
      source. */
  lemma ClassifyInverse(src: string, m: Media)
    ensures SourceOf(Classify(src)) == src
    ensures m.Image? || |m.path| == 0 || m.path[0] != '@' ==> Classify(SourceOf(m)) == m
  {
    if m.Image? {
      assert SourceOf(m)[1..] == m.path;
    }
  }

  /** The source shown for an item: the result once the result is shown,
      the initial source before. */
  function ShownSource(item: Item, showResult: bool): (src: string)
    ensures showResult ==> src == item.resultSrc
    ensures !showResult ==> src == item.initialSrc
  {
    if showResult then item.resultSrc else item.initialSrc
  }

  // ---------------------------------------------------------------------
  // Sequencer state

  /** A scheduled timer: none, the end of loading, or the move to the next
      item; each carries the delay it was scheduled with. */
  datatype Timer = NoTimer | LoadingTimer(delay: int) | AdvanceTimer(delay: int)

  /** The component's state variables, plus the typing interval's local
      character counter and the pending timer. */
  datatype State = State(
    categoryIndex: nat,
    itemIndex: nat,
    displayText: string,
    isTyping: bool,
    isLoading: bool,
    showVideo: bool,
    showProgress: bool,
    showResult: bool,
    completed: seq<string>,
    counter: nat,
    timer: Timer)

  /** `categories[categoryIndex]?.items[itemIndex]`. */
  function CurrentItem(cats: seq<Category>, s: State): (r: Option<Item>)
    ensures r.Some? <==> s.categoryIndex < |cats| && s.itemIndex < |cats[s.categoryIndex].items|
    ensures r.Some? ==> r.value == cats[s.categoryIndex].items[s.itemIndex]
  {
    if s.categoryIndex < |cats| && s.itemIndex < |cats[s.categoryIndex].items| then
      Some(cats[s.categoryIndex].items[s.itemIndex])
    else None
  }

  /** The state before any effect has run. */
  const Initial := State(0, 0, "", true, false, false, false, false, [], 0, NoTimer)

  /** The item-reset effect, run whenever the current item changes. */
  function ResetForItem(s: State): (r: State)
    ensures r.showVideo && !r.showResult && r.isTyping && r.displayText == ""
    ensures !r.isLoading && !r.showProgress
    ensures r.categoryIndex == s.categoryIndex && r.itemIndex == s.itemIndex
    ensures r.completed == s.completed && r.counter == s.counter && r.timer == s.timer
  {
    s.(showVideo := true, showResult := false, isTyping := true, displayText := "",
       isLoading := false, showProgress := false)
  }

  /** The typing effect: with a current item and typing on, show the
      progress bar and start a fresh interval whose counter is 0. */
  function StartTyping(cats: seq<Category>, s: State): (r: State)
    ensures CurrentItem(cats, s).Some? && s.isTyping ==> r == s.(showProgress := true, counter := 0)
    ensures CurrentItem(cats, s).None? || !s.isTyping ==> r == s
  {
    if CurrentItem(cats, s).None? || !s.isTyping then s
    else s.(showProgress := true, counter := 0)
  }

  /** The state once the page has mounted: both effects have run for the
      first item. */
  function Start(cats: seq<Category>): (r: State)
    ensures r.categoryIndex == 0 && r.itemIndex == 0 && r.completed == [] && r.timer == NoTimer
    ensures r.isTyping && r.showVideo && !r.showResult && r.displayText == ""
    ensures r.showProgress <==> |cats| > 0 && |cats[0].items| > 0
  {
    StartTyping(cats, ResetForItem(Initial))
  }

  /** One tick of the typing interval (there is no interval unless there
      is a current item and typing is on). While the counter `k` is at
      most the prompt's length the shown text becomes the prompt's first
      `k` characters; the tick after that ends typing, starts loading and
      schedules the end of loading. */
  function Tick(cats: seq<Category>, s: State): (r: State)
    ensures CurrentItem(cats, s).None? || !s.isTyping ==> r == s
    ensures CurrentItem(cats, s).Some? && s.isTyping ==>
              var d := CurrentItem(cats, s).value.display;
              if s.counter <= |d| then
                r == s.(displayText := d[..s.counter], counter := s.counter + 1)
              else
                r == s.(isTyping := false, isLoading := true, timer := LoadingTimer(LoadingDelay))
    ensures s.isTyping && !r.isTyping ==> CurrentItem(cats, s).Some? && s.counter > |CurrentItem(cats, s).value.display|
  {
    match CurrentItem(cats, s)
    case None => s
    case Some(item) =>
      if !s.isTyping then s
      else if s.counter <= |item.display| then
        s.(displayText := item.display[..s.counter], counter := s.counter + 1)
      else
        s.(isTyping := false, isLoading := true, timer := LoadingTimer(LoadingDelay))
  }

  /** The end-of-loading timer fires: loading stops, the result is shown,
      and the move to the next item is scheduled for the rest of the
      progress duration. */
  function LoadingDone(s: State): (r: State)
    ensures s.timer.LoadingTimer? ==>
              r == s.(isLoading := false, showResult := true, timer := AdvanceTimer(ProgressDuration - LoadingDelay))
    ensures !s.timer.LoadingTimer? ==> r == s
  {
    if s.timer.LoadingTimer? then
      s.(isLoading := false, showResult := true, timer := AdvanceTimer(ProgressDuration - LoadingDelay))
    else s
  }

  /** The loading delay and the result delay add up to the progress
      duration. */
  lemma DelaysSum(s: State)
    requires s.timer.LoadingTimer? && s.timer.delay == LoadingDelay
    ensures s.timer.delay + LoadingDone(s).timer.delay == ProgressDuration
  {
  }

  /** `progressToNext`: the current category's id is appended when the
      item is the category's last; the item index moves on within the
      category, else the category index moves on and the item index goes
      back to 0, else (the last item of the last category) nothing moves. */
  function ProgressToNext(cats: seq<Category>, s: State): (r: State)
    requires s.categoryIndex < |cats|
    ensures var n := |cats[s.categoryIndex].items|;
            && (s.itemIndex == n - 1 ==> r.completed == s.completed + [cats[s.categoryIndex].id])
            && (s.itemIndex != n - 1 ==> r.completed == s.completed)
            && (s.itemIndex < n - 1 ==> r.itemIndex == s.itemIndex + 1 && r.categoryIndex == s.categoryIndex)
            && (s.itemIndex >= n - 1 && s.categoryIndex < |cats| - 1 ==>
                  r.categoryIndex == s.categoryIndex + 1 && r.itemIndex == 0)
            && (s.itemIndex >= n - 1 && s.categoryIndex == |cats| - 1 ==>
                  r.categoryIndex == s.categoryIndex && r.itemIndex == s.itemIndex)
    ensures r.(categoryIndex := s.categoryIndex, itemIndex := s.itemIndex, completed := s.completed) == s
  {
    var items := cats[s.categoryIndex].items;
    var completed := if s.itemIndex == |items| - 1 then s.completed + [cats[s.categoryIndex].id] else s.completed;
    if s.itemIndex < |items| - 1 then
      s.(completed := completed, itemIndex := s.itemIndex + 1)
    else if s.categoryIndex < |cats| - 1 then
      s.(completed := completed, categoryIndex := s.categoryIndex + 1, itemIndex := 0)
    else
      s.(completed := completed)
  }

  /** The scheduled move fires: `progressToNext` runs, and when the
      current item changed the item-reset and typing effects run for the
      new item. On the last item of the last category nothing moves, so
      no effect runs again and the sequence halts. */
  function Advance(cats: seq<Category>, s: State): (r: State)
    requires s.categoryIndex < |cats|
    ensures !s.timer.AdvanceTimer? ==> r == s
    ensures s.timer.AdvanceTimer? ==>
              var t := ProgressToNext(cats, s.(timer := NoTimer));
              && r.categoryIndex == t.categoryIndex && r.itemIndex == t.itemIndex
              && r.completed == t.completed && r.timer == NoTimer
    ensures s.timer.AdvanceTimer? ==>
              var t := ProgressToNext(cats, s.(timer := NoTimer));
              (t.categoryIndex, t.itemIndex) != (s.categoryIndex, s.itemIndex) ==>
                r.isTyping && r.displayText == "" && !r.showResult && r.showVideo
  {
    if !s.timer.AdvanceTimer? then s
    else
      var t := ProgressToNext(cats, s.(timer := NoTimer));
      if t.categoryIndex != s.categoryIndex || t.itemIndex != s.itemIndex then
        StartTyping(cats, ResetForItem(t))
      else t
  }

  // ---------------------------------------------------------------------
  // The invariant

  /** The sequence has halted: nothing is typing and no timer is pending. */
  predicate Finished(s: State) {
    !s.isTyping && s.timer == NoTimer
  }

  /** The shown text as a function of the typing counter: the prefix the
      last tick showed. */
  function Typed(d: string, counter: nat): string
    requires counter <= |d| + 1
  {
    d[..if counter == 0 then 0 else counter - 1]
  }

  /** The sequencer's invariant: the indices name an item; the shown text
      is the prefix of its prompt given by the counter; the phase flags
      agree with the pending timer; the halted state is only reached on
      the last item of the last category; and the completed list is the
      ids of the categories before the current one (and the current one
      too once halted). */
  predicate Valid(cats: seq<Category>, s: State) {
    && s.categoryIndex < |cats|
    && s.itemIndex < |cats[s.categoryIndex].items|
    && var d := cats[s.categoryIndex].items[s.itemIndex].display;
    && s.counter <= |d| + 1
    && s.displayText == Typed(d, s.counter)
    && (s.isTyping ==> s.timer == NoTimer && !s.isLoading && !s.showResult)
    && (s.timer.LoadingTimer? ==> !s.isTyping && s.isLoading && !s.showResult && s.counter == |d| + 1)
    && (s.timer.AdvanceTimer? ==> !s.isTyping && !s.isLoading && s.showResult && s.counter == |d| + 1)
    && (Finished(s) ==>
          s.categoryIndex == |cats| - 1 && s.itemIndex == |cats[s.categoryIndex].items| - 1 && s.showResult)
    && s.completed == Ids(cats[..s.categoryIndex + (if Finished(s) then 1 else 0)])
  }

  /** The shown text is always a prefix of the current item's prompt, and
      never longer. */
  lemma ShownTextIsPrefix(cats: seq<Category>, s: State)
    requires Valid(cats, s)
    ensures CurrentItem(cats, s).Some?
    ensures IsPrefix(s.displayText, CurrentItem(cats, s).value.display)
  {
  }

  /** Mounting on a non-empty catalogue of non-empty categories starts
      typing the first item with an empty text. */
  lemma StartValid(cats: seq<Category>)
    requires |cats| > 0 && AllNonEmpty(cats)
    ensures Valid(cats, Start(cats))
    ensures Start(cats).isTyping && Start(cats).showProgress && Start(cats).displayText == ""
  {
    assert cats[..0] == [];
  }

  lemma TickValid(cats: seq<Category>, s: State)
    requires Valid(cats, s)
    ensures Valid(cats, Tick(cats, s))
  {
  }

  lemma LoadingDoneValid(cats: seq<Category>, s: State)
    requires Valid(cats, s)
    ensures Valid(cats, LoadingDone(s))
  {
  }

  /** The ids of one more category are the ids so far and its id. */
  lemma IdsExtend(cats: seq<Category>, k: nat)
    requires k < |cats|
    ensures Ids(cats[..k + 1]) == Ids(cats[..k]) + [cats[k].id]
  {
    assert cats[..k + 1] == cats[..k] + [cats[k]];
  }

  /** The move to the next item keeps the invariant, given that every
      category has an item. */
  lemma {:induction false} AdvanceValid(cats: seq<Category>, s: State)
    requires AllNonEmpty(cats) && Valid(cats, s)
    ensures Valid(cats, Advance(cats, s))
  {
    if s.timer.AdvanceTimer? {
      var n := |cats[s.categoryIndex].items|;
      var t := ProgressToNext(cats, s.(timer := NoTimer));
      if s.itemIndex == n - 1 {
        IdsExtend(cats, s.categoryIndex);
      }
      if t.categoryIndex != s.categoryIndex || t.itemIndex != s.itemIndex {
        var r := StartTyping(cats, ResetForItem(t));
        assert r == t.(showVideo := true, showResult := false, isTyping := true, displayText := "",
                       isLoading := false, showProgress := true, counter := 0);
      } else {
        assert Advance(cats, s) == t;
        assert Finished(t);
      }
    }
  }

  /** Once halted, every category has been completed, each once, in
      catalogue order. */
  lemma FinishedCompletesAll(cats: seq<Category>, s: State)
    requires Valid(cats, s) && Finished(s)
    ensures s.completed == Ids(cats)
  {
    assert cats[..s.categoryIndex + 1] == cats;
  }

  /** `n` interval ticks. */
  function Ticks(cats: seq<Category>, s: State, n: nat): State
    decreases n
  {
    if n == 0 then s else Ticks(cats, Tick(cats, s), n - 1)
  }

  /** From a freshly started item, tick `k` (for `k` up to one more than
      the prompt's length) shows the prompt's first `k - 1` characters and
      keeps typing; tick `|prompt| + 2` ends typing and starts loading. */
  lemma {:induction false} TypingRun(cats: seq<Category>, s: State, k: nat)
    requires CurrentItem(cats, s).Some? && s.isTyping && s.counter == 0 && s.timer == NoTimer
    requires k <= |CurrentItem(cats, s).value.display| + 1
    ensures var d := CurrentItem(cats, s).value.display;
            && Ticks(cats, s, k).isTyping
            && Ticks(cats, s, k).counter == k
            && (k > 0 ==> Ticks(cats, s, k).displayText == d[..k - 1])
            && CurrentItem(cats, Ticks(cats, s, k)) == CurrentItem(cats, s)
            && Ticks(cats, s, k).timer == NoTimer
    ensures var d := CurrentItem(cats, s).value.display;
            k == |d| + 1 ==>
              var e := Ticks(cats, s, |d| + 2);
              !e.isTyping && e.isLoading && e.displayText == d && e.timer == LoadingTimer(LoadingDelay)
    decreases k
  {
    var d := CurrentItem(cats, s).value.display;
    if k > 0 {
      TypingRun(cats, s, k - 1);
      TicksSplit(cats, s, k - 1);
    }
    if k == |d| + 1 {
      TicksSplit(cats, s, k);
    }
  }

  /** `n + 1` ticks are `n` ticks and one more. */
  lemma {:induction false} TicksSplit(cats: seq<Category>, s: State, n: nat)
    ensures Ticks(cats, s, n + 1) == Tick(cats, Ticks(cats, s, n))
    decreases n
  {
    if n > 0 {
      TicksSplit(cats, Tick(cats, s), n - 1);
    }
  }

  // ---------------------------------------------------------------------
  // The component

  /** The sequencer component; its categories are the page's catalogue. */
  class MobileTypewriterMenu {
    const categories: seq<Category>
    var categoryIndex: nat
    var itemIndex: nat
    var displayText: string
    var isTyping: bool
    var isLoading: bool
    var showVideo: bool
    var showProgress: bool
    var showResult: bool
    var completedCategories: seq<string>
    var counter: nat
    var timer: Timer

    /** The state variables as one record. */
    function View(): State
      reads this
    {
      State(categoryIndex, itemIndex, displayText, isTyping, isLoading, showVideo, showProgress,
            showResult, completedCategories, counter, timer)
    }

    /** The categories are non-empty and the state keeps the sequencer's
        invariant. */
    predicate Inv()
      reads this
    {
      AllNonEmpty(categories) && Valid(categories, View())
    }

    /** Mounting: the initial state, then the reset and typing effects for
        the first item. */
    constructor ()
      ensures categories == Catalog
      ensures View() == Start(Catalog)
      ensures Inv()
    {
      categories := Catalog;
      categoryIndex, itemIndex := 0, 0;
      completedCategories := [];
      timer := NoTimer;
      showVideo, showResult, isTyping, displayText, isLoading := true, false, true, "", false;
      showProgress, counter := true, 0;
      new;
      CatalogWellFormed();
      StartValid(Catalog);
    }

    /** One tick of the typing interval. */
    method TypingTick()
      requires Inv()
      modifies this
      ensures View() == Tick(categories, old(View()))
      ensures Inv()
    {
      TickValid(categories, View());
      if isTyping {
        var display := categories[categoryIndex].items[itemIndex].display;
        if counter <= |display| {
          displayText := display[..counter];
          counter := counter + 1;
        } else {
          isTyping := false;
          isLoading := true;
          timer := LoadingTimer(LoadingDelay);
        }
      }
    }

    /** The end-of-loading timer fires. */
    method LoadingTimerFires()
      requires Inv()
      modifies this
      ensures View() == LoadingDone(old(View()))
      ensures Inv()
    {
      LoadingDoneValid(categories, View());
      if timer.LoadingTimer? {
        isLoading := false;
        showResult := true;
        timer := AdvanceTimer(ProgressDuration - LoadingDelay);
      }
    }

    /** `progressToNext`, on the state variables. */
    method ProgressToNextStep()
      requires categoryIndex < |categories|
      modifies this
      ensures View() == ProgressToNext(categories, old(View()))
    {
      var items := categories[categoryIndex].items;
      if itemIndex == |items| - 1 {
        completedCategories := completedCategories + [categories[categoryIndex].id];
      }
      if itemIndex < |items| - 1 {
        itemIndex := itemIndex + 1;
      } else if categoryIndex < |categories| - 1 {
        categoryIndex := categoryIndex + 1;
        itemIndex := 0;
      }
    }

    /** The scheduled move to the next item fires. */
    method AdvanceTimerFires()
      requires Inv()
      modifies this
      ensures View() == Advance(categories, old(View()))
      ensures Inv()
    {
      AdvanceValid(categories, View());
      if timer.AdvanceTimer? {
        var category, item := categoryIndex, itemIndex;
        timer := NoTimer;
        ProgressToNextStep();
        if categoryIndex != category || itemIndex != item {
          showVideo, showResult, isTyping, displayText, isLoading := true, false, true, "", false;
          showProgress, counter := true, 0;
        }
      }
    }
  }
}
