/** The shape of the component configuration (the `Config` interface of
    the configuration context, and the variant-style record of the
    defaults). A property that may be missing from a stored or edited
    record, and that the components read through a fallback, is an
    `Option`. */
module ConfigTypes {
  import opened Wrappers

  datatype TerminalConfig = TerminalConfig(commands: seq<string>, prompt: string)

  datatype CodeEditorConfig = CodeEditorConfig(code: string, language: string, theme: string)

  datatype Command = Command(id: string, title: string, icon: string, shortcut: Option<string>)

  datatype CommandPaletteConfig = CommandPaletteConfig(placeholder: string, commands: Option<seq<Command>>)

  datatype NotificationKind = Success | Error | Warning | Info

  datatype Notification = Notification(
    id: string,
    kind: NotificationKind,
    title: string,
    message: string,
    icon: Option<string>,
    duration: Option<int>)

  datatype StackPosition = TopRight | TopLeft | BottomRight | BottomLeft

  datatype NotificationStackConfig = NotificationStackConfig(
    notifications: Option<seq<Notification>>,
    position: Option<StackPosition>,
    maxNotifications: Option<int>)

  /** The six window variants. */
  datatype Variant = DefaultVariant | Minimal | Dark | Gradient | Glassmorphic | Chroma

  datatype ButtonStyle = DefaultButtons | MinimalButtons | HiddenButtons

  datatype WindowStyle = WindowStyle(
    backgroundColor: string,
    borderColor: string,
    titleBarColor: string,
    buttonStyle: ButtonStyle,
    borderRadius: string,
    shadow: string)

  datatype WindowAnimations = WindowAnimations(mount: bool, hover: bool, buttonHover: bool)

  datatype MacWindowConfig = MacWindowConfig(
    variant: Variant,
    customCursor: bool,
    style: WindowStyle,
    animations: WindowAnimations,
    title: Option<string>,
    showTitle: bool)

  datatype MenuItem = MenuItem(id: string, text: string, href: string)

  datatype TypewriterMenuConfig = TypewriterMenuConfig(items: Option<seq<MenuItem>>)

  datatype Category = Category(id: string, name: string, items: seq<MenuItem>)

  datatype InteractiveTypewriterConfig = InteractiveTypewriterConfig(categories: Option<seq<Category>>)

  /** A whole configuration record: one optional section per widget. */
  datatype Config = Config(
    terminal: Option<TerminalConfig>,
    codeEditor: Option<CodeEditorConfig>,
    commandPalette: Option<CommandPaletteConfig>,
    notificationStack: Option<NotificationStackConfig>,
    macWindow: Option<MacWindowConfig>,
    typewriterMenu: Option<TypewriterMenuConfig>,
    interactiveTypewriter: Option<InteractiveTypewriterConfig>)

  /** The explicit box-shadow choice a window variant may carry. */
  datatype ShadowChoice = NoShadow | LargeShadow

  /** One entry of the window-variant table. */
  datatype VariantStyle = VariantStyle(
    backgroundColor: string,
    borderColor: string,
    titleBarColor: string,
    buttonStyle: ButtonStyle,
    shadow: Option<ShadowChoice>)

  /** No two categories share an id. */
  predicate DistinctCategoryIds(categories: seq<Category>) {
    forall i, j :: 0 <= i < j < |categories| ==> categories[i].id != categories[j].id
  }

  /** Every category has at least one item. */
  predicate NoEmptyCategory(categories: seq<Category>) {
    forall i :: 0 <= i < |categories| ==> |categories[i].items| > 0
  }
}
