/** The built-in configuration and the window-variant table, as constants,
    with the facts about them that the components rely on. */
module Defaults {
  import opened Wrappers
  import opened ConfigTypes

  const DefaultTerminal := TerminalConfig(
    ["detect: truck", "detect: car", "detect: moon", "detect: lights"],
    "moondream:")

  const DefaultCode :=
    "function animate() {\n"
    + "  const element = document.querySelector('.box');\n"
    + "  element.style.transform = 'rotate(360deg)';\n"
    + "  element.style.transition = 'all 0.5s ease';\n"
    + "}\n"
    + "\n"
    + "// Call the animation function\n"
    + "animate();"

  const DefaultCodeEditor := CodeEditorConfig(DefaultCode, "javascript", "dark")

  const DefaultCommands: seq<Command> := [
    Command("1", "New File", "\U{1F4C4}", Some("\U{2318}N")),
    Command("2", "Open Project", "\U{1F4C1}", Some("\U{2318}O"))
  ]

  const DefaultCommandPalette := CommandPaletteConfig("Type a command or search...", Some(DefaultCommands))

  const DefaultNotifications: seq<Notification> := [
    Notification("1", Success, "Deployment Successful", "Your changes are now live", None, Some(3000))
  ]

  const DefaultMaxNotifications := 3

  const DefaultNotificationStack := NotificationStackConfig(Some(DefaultNotifications), Some(TopRight), Some(DefaultMaxNotifications))

  const DefaultWindowStyle := WindowStyle(
    "rgba(0, 0, 0, 0.8)",
    "rgba(255, 255, 255, 0.1)",
    "rgba(0, 0, 0, 0.9)",
    DefaultButtons,
    "0.75rem",
    "lg")

  const DefaultMacWindow := MacWindowConfig(
    DefaultVariant,
    false,
    DefaultWindowStyle,
    WindowAnimations(true, true, true),
    Some(""),
    false)

  const DefaultMenuItems: seq<MenuItem> := [
    MenuItem("1", "Welcome to Moondream", "/"),
    MenuItem("2", "Create Beautiful Videos", "/create"),
    MenuItem("3", "Explore Components", "/explore"),
    MenuItem("4", "Join Our Community", "/community")
  ]

  const DefaultTypewriterMenu := TypewriterMenuConfig(Some(DefaultMenuItems))

  const DefaultCategories: seq<Category> := [
    Category("detection", "Object Detection", [
      MenuItem("1", "detect: truck", "/"),
      MenuItem("2", "detect: car", "/"),
      MenuItem("3", "detect: moon", "/"),
      MenuItem("4", "detect: lights", "/")
    ]),
    Category("vqa", "Visual Q&A", [
      MenuItem("1", "ask: what time of day is it?", "/"),
      MenuItem("2", "ask: how many people are in the scene?", "/"),
      MenuItem("3", "ask: what's the weather like?", "/")
    ]),
    Category("caption", "Image Captioning", [
      MenuItem("1", "caption: describe the scene", "/"),
      MenuItem("2", "caption: describe the mood", "/"),
      MenuItem("3", "caption: describe the lighting", "/")
    ])
  ]

  const DefaultInteractiveTypewriter := InteractiveTypewriterConfig(Some(DefaultCategories))

  /** The built-in configuration: every section present. */
  const DefaultConfig := Config(
    Some(DefaultTerminal),
    Some(DefaultCodeEditor),
    Some(DefaultCommandPalette),
    Some(DefaultNotificationStack),
    Some(DefaultMacWindow),
    Some(DefaultTypewriterMenu),
    Some(DefaultInteractiveTypewriter))

  /** The window-variant table, one entry per variant. */
  function VariantStyles(v: Variant): VariantStyle {
    match v
    case DefaultVariant =>
      VariantStyle("rgba(0, 0, 0, 0.8)", "rgba(255, 255, 255, 0.1)", "rgba(0, 0, 0, 0.9)", DefaultButtons, None)
    case Minimal =>
      VariantStyle("rgba(0, 0, 0, 0.7)", "transparent", "transparent", MinimalButtons, None)
    case Dark =>
      VariantStyle("rgba(0, 0, 0, 0.95)", "rgba(255, 255, 255, 0.05)", "rgba(0, 0, 0, 1)", DefaultButtons, None)
    case Gradient =>
      VariantStyle(
        "linear-gradient(135deg, rgba(45,45,45,0.9) 0%, rgba(20,20,20,0.95) 50%, rgba(0,0,0,1) 100%)",
        "rgba(255, 255, 255, 0.15)",
        "linear-gradient(to right, rgba(0,0,0,0.95), rgba(20,20,20,0.9))",
        DefaultButtons, None)
    case Glassmorphic =>
      VariantStyle(
        "linear-gradient(135deg, rgba(255,255,255,0.1) 0%, rgba(255,255,255,0.05) 100%)",
        "rgba(255, 255, 255, 0.2)",
        "rgba(255, 255, 255, 0.05)",
        MinimalButtons, None)
    case Chroma =>
      VariantStyle("#0000FF", "rgba(255, 255, 255, 0.2)", "#0000FF", DefaultButtons, Some(NoShadow))
  }

  /** The interactive-typewriter catalogue is well formed: every category
      has items, the ids `detection`, `vqa`, `caption` are distinct, and
      the initially selected `detection` category exists. */
  lemma DefaultCategoriesWellFormed()
    ensures NoEmptyCategory(DefaultCategories)
    ensures DistinctCategoryIds(DefaultCategories)
    ensures |DefaultCategories| == 3 && DefaultCategories[0].id == "detection"
  {
  }

  /** The typewriter menu has items to cycle through. */
  lemma DefaultMenuNonEmpty()
    ensures |DefaultMenuItems| == 4
  {
  }

  /** Only the chroma variant sets a shadow, and it turns the shadow off. */
  lemma OnlyChromaSetsShadow(v: Variant)
    ensures VariantStyles(v).shadow != Some(LargeShadow)
    ensures VariantStyles(v).shadow == Some(NoShadow) <==> v == Chroma
    ensures VariantStyles(v).shadow == None <==> v != Chroma
  {
  }

  /** No variant hides the window buttons. */
  lemma NoVariantHidesButtons(v: Variant)
    ensures VariantStyles(v).buttonStyle != HiddenButtons
  {
  }

  /** The default window uses the `default` variant, and its colours and
      button style are that variant's. */
  lemma DefaultWindowMatchesVariant()
    ensures DefaultMacWindow.variant == DefaultVariant
    ensures VariantStyles(DefaultVariant).backgroundColor == DefaultWindowStyle.backgroundColor
    ensures VariantStyles(DefaultVariant).borderColor == DefaultWindowStyle.borderColor
    ensures VariantStyles(DefaultVariant).titleBarColor == DefaultWindowStyle.titleBarColor
    ensures VariantStyles(DefaultVariant).buttonStyle == DefaultWindowStyle.buttonStyle
  {
  }
}
