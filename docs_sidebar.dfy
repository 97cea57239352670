/** The documentation sidebar: the window-style controls (each an update
    of the window section handed to the configuration store), the Reset
    Animations button, and the active-link rule. */
module DocsSidebar {
  import opened Wrappers
  import opened ConfigTypes
  import opened Defaults
  import opened ConfigContext
  import opened ComponentsContext

  /** `config?.macWindow || defaultConfig.macWindow`. */
  function MacWindowOf(c: Config): MacWindowConfig {
    c.macWindow.GetOr(DefaultMacWindow)
  }

  /** Every section other than the window section is the same in `c` and `r`. */
  predicate OtherSectionsKept(c: Config, r: Config) {
    && r.terminal == c.terminal
    && r.codeEditor == c.codeEditor
    && r.commandPalette == c.commandPalette
    && r.notificationStack == c.notificationStack
    && r.typewriterMenu == c.typewriterMenu
    && r.interactiveTypewriter == c.interactiveTypewriter
  }

  /** The variant select: the variant is set and the background, border
      and title-bar colours and the button style are copied from the
      variant table; the radius and shadow of the style, the variant
      table's own shadow notwithstanding, and the rest of the window
      section are kept. */
  function WithVariant(c: Config, v: Variant): (r: Config)
    ensures OtherSectionsKept(c, r)
    ensures r.macWindow.Some? && r.macWindow.value.variant == v
    ensures r.macWindow.value.style.backgroundColor == VariantStyles(v).backgroundColor
    ensures r.macWindow.value.style.borderColor == VariantStyles(v).borderColor
    ensures r.macWindow.value.style.titleBarColor == VariantStyles(v).titleBarColor
    ensures r.macWindow.value.style.buttonStyle == VariantStyles(v).buttonStyle
    ensures r.macWindow.value.style.borderRadius == MacWindowOf(c).style.borderRadius
    ensures r.macWindow.value.style.shadow == MacWindowOf(c).style.shadow
    ensures r.macWindow.value.(variant := MacWindowOf(c).variant, style := MacWindowOf(c).style) == MacWindowOf(c)
  {
    var w := MacWindowOf(c);
    var t := VariantStyles(v);
    c.(macWindow := Some(w.(
      variant := v,
      style := w.style.(
        backgroundColor := t.backgroundColor,
        borderColor := t.borderColor,
        titleBarColor := t.titleBarColor,
        buttonStyle := t.buttonStyle))))
  }

  /** The Show Title checkbox: only `showTitle` changes. */
  function WithShowTitle(c: Config, checked: bool): (r: Config)
    ensures OtherSectionsKept(c, r)
    ensures r.macWindow.Some? && r.macWindow.value.showTitle == checked
    ensures r.macWindow.value.(showTitle := MacWindowOf(c).showTitle) == MacWindowOf(c)
  {
    c.(macWindow := Some(MacWindowOf(c).(showTitle := checked)))
  }

  /** The title field: only `title` changes. */
  function WithTitle(c: Config, title: string): (r: Config)
    ensures OtherSectionsKept(c, r)
    ensures r.macWindow.Some? && r.macWindow.value.title == Some(title)
    ensures r.macWindow.value.(title := MacWindowOf(c).title) == MacWindowOf(c)
  {
    c.(macWindow := Some(MacWindowOf(c).(title := Some(title))))
  }

  /** The Custom Cursor checkbox: only `customCursor` changes. */
  function WithCustomCursor(c: Config, checked: bool): (r: Config)
    ensures OtherSectionsKept(c, r)
    ensures r.macWindow.Some? && r.macWindow.value.customCursor == checked
    ensures r.macWindow.value.(customCursor := MacWindowOf(c).customCursor) == MacWindowOf(c)
  {
    c.(macWindow := Some(MacWindowOf(c).(customCursor := checked)))
  }

  /** Choosing a variant twice in a row is choosing it once. */
  lemma WithVariantIdempotent(c: Config, v: Variant)
    ensures WithVariant(WithVariant(c, v), v) == WithVariant(c, v)
  {
  }

  /** The variant select's change handler. */
  method ChangeVariant(store: ConfigProvider, v: Variant)
    modifies store
    ensures store.config == WithVariant(old(store.config), v)
    ensures store.storage == old(store.storage)[StorageKey := store.serialize(store.config)]
  {
    store.UpdateConfig(WithVariant(store.config, v));
  }

  /** The Show Title checkbox's change handler. */
  method ChangeShowTitle(store: ConfigProvider, checked: bool)
    modifies store
    ensures store.config == WithShowTitle(old(store.config), checked)
    ensures store.storage == old(store.storage)[StorageKey := store.serialize(store.config)]
  {
    store.UpdateConfig(WithShowTitle(store.config, checked));
  }

  /** The title field's change handler. */
  method ChangeTitle(store: ConfigProvider, title: string)
    modifies store
    ensures store.config == WithTitle(old(store.config), title)
    ensures store.storage == old(store.storage)[StorageKey := store.serialize(store.config)]
  {
    store.UpdateConfig(WithTitle(store.config, title));
  }

  /** The Custom Cursor checkbox's change handler. */
  method ChangeCustomCursor(store: ConfigProvider, checked: bool)
    modifies store
    ensures store.config == WithCustomCursor(old(store.config), checked)
    ensures store.storage == old(store.storage)[StorageKey := store.serialize(store.config)]
  {
    store.UpdateConfig(WithCustomCursor(store.config, checked));
  }

  /** The titles whose flag is on. */
  function OnTitles(active: map<string, bool>): (on: set<string>)
    ensures forall k :: k in on <==> IsOn(active, k)
  {
    set k | k in active && active[k]
  }

  /** One pass of Reset Animations: toggle each title of `titles`, all of
      which are currently `!on`, so that they become `on`; other entries
      are kept. Each toggle that switches a title on requests navigation
      home unless the route is already `/`. */
  method TogglePass(components: ComponentsProvider, titles: set<string>, on: bool) returns (navigations: nat)
    requires forall k :: k in titles ==> k in components.active && components.active[k] == !on
    modifies components
    ensures components.active.Keys == old(components.active.Keys)
    ensures forall k :: k in titles ==> components.active[k] == on
    ensures forall k :: k in old(components.active) && k !in titles ==> components.active[k] == old(components.active[k])
    ensures navigations == if on && components.pathname != "/" then |titles| else 0
  {
    var pending, done := titles, {};
    navigations := 0;
    while pending != {}
      invariant pending + done == titles && pending !! done
      invariant components.active.Keys == old(components.active.Keys)
      invariant forall k :: k in pending ==> components.active[k] == !on
      invariant forall k :: k in done ==> components.active[k] == on
      invariant forall k :: k in old(components.active) && k !in titles ==> components.active[k] == old(components.active[k])
      invariant navigations == if on && components.pathname != "/" then |done| else 0
      decreases |pending|
    {
      var k :| k in pending;
      var navigate := components.Toggle(k);
      if navigate {
        navigations := navigations + 1;
      }
      pending, done := pending - {k}, done + {k};
    }
  }

  /** Reset Animations: every title that is on is switched off, then (by
      the deferred second toggle) on again; titles that are off are not
      touched. The map ends as it began; each switch back on requests
      navigation home unless the route is already `/`. */
  method ResetAnimations(components: ComponentsProvider) returns (navigations: nat)
    modifies components
    ensures components.active == old(components.active)
    ensures navigations == if components.pathname == "/" then 0 else |OnTitles(old(components.active))|
  {
    var snapshot := components.active;
    var onTitles := OnTitles(snapshot);
    var _ := TogglePass(components, onTitles, false);
    navigations := TogglePass(components, onTitles, true);
    assert forall k :: k in snapshot ==> components.active[k] == snapshot[k];
  }

  /** `isActive`: a link is highlighted when the current path is its path. */
  function IsActive(currentPath: string, path: string): bool {
    currentPath == path
  }

  /** The three Getting Started links. */
  const DocLinks := ["/docs/overview", "/docs/installation", "/docs/usage"]

  /** At most one Getting Started link is highlighted, and exactly one
      when the current path is one of theirs. */
  lemma {:induction false} OneActiveLink(currentPath: string)
    ensures forall i, j :: 0 <= i < j < |DocLinks| ==> !(IsActive(currentPath, DocLinks[i]) && IsActive(currentPath, DocLinks[j]))
    ensures (exists i :: 0 <= i < |DocLinks| && IsActive(currentPath, DocLinks[i])) <==> currentPath in DocLinks
  {
    assert DocLinks[0] != DocLinks[1] && DocLinks[0] != DocLinks[2] && DocLinks[1] != DocLinks[2] by {
      assert DocLinks[0][6] == 'o' && DocLinks[1][6] == 'i' && DocLinks[2][6] == 'u';
    }
  }
}
