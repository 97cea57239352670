/** The window frame every demo is drawn in: its colours come from the
    variant table, its radius and shadow from the window style, and the
    glassmorphic variant adds a blur, a glow and a border of its own. */
module MacWindow {
  import opened Wrappers
  import opened ConfigTypes
  import opened Defaults

  /** The large drop shadow, the glassmorphic glow, blur and border. */
  const LargeShadowCss := "0 10px 30px -5px rgba(0, 0, 0, 0.3)"
  const GlowCss := "0 8px 32px 0 rgba(255, 255, 255, 0.1)"
  const BlurCss := "blur(10px)"
  const GlassBorderCss := "1px solid rgba(255, 255, 255, 0.2)"

  /** The three buttons' colour classes. */
  const TrafficLights := ["bg-[#ff5f57]", "bg-[#febc2e]", "bg-[#28c841]"]
  const GreyButtons := ["bg-white/20", "bg-white/20", "bg-white/20"]

  /** What the frame renders. A style property that is left undefined is
      `None`. */
  datatype WindowView = WindowView(
    backgroundColor: string,
    borderColor: string,
    borderRadius: string,
    boxShadow: Option<string>,
    backdropFilter: Option<string>,
    border: Option<string>,
    titleBarColor: string,
    buttons: Option<seq<string>>,
    buttonHoverScale: bool,
    title: Option<string>,
    hoverLift: bool,
    mountFade: bool)

  /** `config?.macWindow || defaultConfig.macWindow`. */
  function WindowOf(c: Config): (w: MacWindowConfig)
    ensures c.macWindow.Some? ==> w == c.macWindow.value
    ensures c.macWindow.None? ==> w == DefaultMacWindow
  {
    c.macWindow.GetOr(DefaultMacWindow)
  }

  /** The shadow rule before the glassmorphic extras: a variant that
      turns the shadow off wins; otherwise the style's `lg` gives the
      large shadow and anything else leaves it undefined. */
  function ShadowRule(variantShadow: Option<ShadowChoice>, styleShadow: string): (r: Option<string>)
    ensures variantShadow == Some(NoShadow) ==> r == Some("none")
    ensures variantShadow != Some(NoShadow) && styleShadow == "lg" ==> r == Some(LargeShadowCss)
    ensures variantShadow != Some(NoShadow) && styleShadow != "lg" ==> r == None
  {
    if variantShadow == Some(NoShadow) then Some("none")
    else if styleShadow == "lg" then Some(LargeShadowCss)
    else None
  }

  /** `showTitle && title`: shown only when enabled and non-empty. */
  function ShownTitle(showTitle: bool, title: Option<string>): (r: Option<string>)
    ensures r.Some? <==> showTitle && title.Some? && title.value != ""
    ensures r.Some? ==> r == title
  {
    if showTitle && title.Some? && title.value != "" then title else None
  }

  /** The rendered frame for a configuration. */
  function Render(c: Config): (r: WindowView)
    ensures r.backgroundColor == VariantStyles(WindowOf(c).variant).backgroundColor
    ensures r.borderColor == VariantStyles(WindowOf(c).variant).borderColor
    ensures r.titleBarColor == VariantStyles(WindowOf(c).variant).titleBarColor
    ensures r.borderRadius == WindowOf(c).style.borderRadius
    ensures r.title == ShownTitle(WindowOf(c).showTitle, WindowOf(c).title)
    ensures r.hoverLift == WindowOf(c).animations.hover && r.mountFade == WindowOf(c).animations.mount
    ensures r.buttonHoverScale == WindowOf(c).animations.buttonHover
  {
    var w := WindowOf(c);
    var t := VariantStyles(w.variant);
    var glass := w.variant == Glassmorphic;
    WindowView(
      t.backgroundColor,
      t.borderColor,
      w.style.borderRadius,
      if glass then Some(GlowCss) else ShadowRule(t.shadow, w.style.shadow),
      if glass then Some(BlurCss) else None,
      if glass then Some(GlassBorderCss) else None,
      t.titleBarColor,
      if t.buttonStyle == HiddenButtons then None
      else if t.buttonStyle == MinimalButtons then Some(GreyButtons)
      else Some(TrafficLights),
      w.animations.buttonHover,
      ShownTitle(w.showTitle, w.title),
      w.animations.hover,
      w.animations.mount)
  }

  /** The frame's shadow: none for chroma, the glow for glassmorphic (its
      extras override the rule), and for the other variants the large
      shadow exactly when the style asks for `lg`. */
  lemma BoxShadow(c: Config)
    ensures WindowOf(c).variant == Chroma ==> Render(c).boxShadow == Some("none")
    ensures WindowOf(c).variant == Glassmorphic ==> Render(c).boxShadow == Some(GlowCss)
    ensures WindowOf(c).variant !in {Chroma, Glassmorphic} ==>
              (Render(c).boxShadow == Some(LargeShadowCss) <==> WindowOf(c).style.shadow == "lg")
    ensures WindowOf(c).variant !in {Chroma, Glassmorphic} ==>
              (Render(c).boxShadow == None <==> WindowOf(c).style.shadow != "lg")
  {
    OnlyChromaSetsShadow(WindowOf(c).variant);
  }

  /** Only the glassmorphic variant gets the blur and its own border. */
  lemma GlassExtras(c: Config)
    ensures Render(c).backdropFilter.Some? <==> WindowOf(c).variant == Glassmorphic
    ensures Render(c).border.Some? <==> WindowOf(c).variant == Glassmorphic
  {
  }

  /** The buttons are always drawn (no variant hides them): grey for the
      minimal and glassmorphic variants, the red, yellow and green
      buttons for the others. */
  lemma Buttons(c: Config)
    ensures Render(c).buttons.Some? && |Render(c).buttons.value| == 3
    ensures WindowOf(c).variant in {Minimal, Glassmorphic} <==> Render(c).buttons == Some(GreyButtons)
    ensures WindowOf(c).variant !in {Minimal, Glassmorphic} <==> Render(c).buttons == Some(TrafficLights)
  {
    NoVariantHidesButtons(WindowOf(c).variant);
    assert GreyButtons[0] != TrafficLights[0];
  }

  /** The colours come from the variant table alone: two configurations
      with the same variant, radius, shadow, title and animation flags
      render the same frame, whatever colours their styles carry. */
  lemma ColorsFromVariantOnly(c1: Config, c2: Config)
    requires WindowOf(c1).(style := WindowOf(c2).style) == WindowOf(c2)
    requires WindowOf(c1).style.borderRadius == WindowOf(c2).style.borderRadius
    requires WindowOf(c1).style.shadow == WindowOf(c2).style.shadow
    ensures Render(c1) == Render(c2)
  {
  }

  /** Without a window section the frame is the default variant's, with
      the large shadow, the traffic-light buttons and no title. */
  lemma DefaultFrame(c: Config)
    requires c.macWindow.None?
    ensures Render(c).backgroundColor == DefaultWindowStyle.backgroundColor
    ensures Render(c).boxShadow == Some(LargeShadowCss)
    ensures Render(c).buttons == Some(TrafficLights)
    ensures Render(c).title == None
  {
    DefaultWindowMatchesVariant();
  }
}
