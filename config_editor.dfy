/** The per-widget configuration editor: opening it loads one section as
    text, saving parses the text and replaces just that section, a parse
    failure keeps the configuration and shows an error, cancel closes. */
module ConfigEditor {
  import opened Wrappers
  import opened ConfigTypes
  import opened Defaults
  import opened ConfigContext

  /** The four editable sections. */
  datatype ComponentId = TerminalId | CodeEditorId | CommandPaletteId | NotificationStackId

  /** The value of one editable section. */
  datatype Section =
    | TerminalSection(terminal: TerminalConfig)
    | CodeEditorSection(codeEditor: CodeEditorConfig)
    | CommandPaletteSection(commandPalette: CommandPaletteConfig)
    | NotificationStackSection(notificationStack: NotificationStackConfig)
  {
    /** The section a value belongs to. */
    function Id(): ComponentId {
      match this
      case TerminalSection(_) => TerminalId
      case CodeEditorSection(_) => CodeEditorId
      case CommandPaletteSection(_) => CommandPaletteId
      case NotificationStackSection(_) => NotificationStackId
    }
  }

  /** The message shown when the edited text does not parse. */
  const InvalidJson := "Invalid JSON format"

  /** `config[componentId]`: the section, when present. */
  function SectionOf(c: Config, id: ComponentId): (r: Option<Section>)
    ensures r.Some? ==> r.value.Id() == id
  {
    match id
    case TerminalId => if c.terminal.Some? then Some(TerminalSection(c.terminal.value)) else None
    case CodeEditorId => if c.codeEditor.Some? then Some(CodeEditorSection(c.codeEditor.value)) else None
    case CommandPaletteId =>
      if c.commandPalette.Some? then Some(CommandPaletteSection(c.commandPalette.value)) else None
    case NotificationStackId =>
      if c.notificationStack.Some? then Some(NotificationStackSection(c.notificationStack.value)) else None
  }

  /** `{...config, [id]: s}` for the section `s` belongs to: that section
      becomes `s`, every other section is kept. */
  function WithSection(c: Config, s: Section): (r: Config)
    ensures SectionOf(r, s.Id()) == Some(s)
    ensures forall id :: id != s.Id() ==> SectionOf(r, id) == SectionOf(c, id)
    ensures r.macWindow == c.macWindow
    ensures r.typewriterMenu == c.typewriterMenu
    ensures r.interactiveTypewriter == c.interactiveTypewriter
  {
    match s
    case TerminalSection(t) => c.(terminal := Some(t))
    case CodeEditorSection(e) => c.(codeEditor := Some(e))
    case CommandPaletteSection(p) => c.(commandPalette := Some(p))
    case NotificationStackSection(n) => c.(notificationStack := Some(n))
  }

  /** Writing back a section the configuration already holds changes
      nothing. */
  lemma WithOwnSection(c: Config, id: ComponentId)
    requires SectionOf(c, id).Some?
    ensures WithSection(c, SectionOf(c, id).value) == c
  {
  }

  /** The default value of a section. */
  function DefaultSection(id: ComponentId): (s: Section)
    ensures SectionOf(DefaultConfig, id) == Some(s)
  {
    match id
    case TerminalId => TerminalSection(DefaultTerminal)
    case CodeEditorId => CodeEditorSection(DefaultCodeEditor)
    case CommandPaletteId => CommandPaletteSection(DefaultCommandPalette)
    case NotificationStackId => NotificationStackSection(DefaultNotificationStack)
  }

  /** `config[id] || defaultConfig[id]`: the section the editor opens. */
  function SectionToEdit(c: Config, id: ComponentId): (s: Section)
    ensures s.Id() == id
    ensures SectionOf(c, id).Some? ==> Some(s) == SectionOf(c, id)
    ensures SectionOf(c, id).None? ==> s == DefaultSection(id)
  {
    SectionOf(c, id).GetOr(DefaultSection(id))
  }

  /** What saving `text` does to the configuration `c`: the section it
      parses to replaces its own section and nothing else, or the save
      fails with the invalid-JSON message. */
  function Save(c: Config, text: string, decode: string -> Option<Section>): (r: Result<Config, string>)
    ensures r.Err? <==> decode(text).None?
    ensures r.Err? ==> r.error == InvalidJson
    ensures r.Ok? ==> SectionOf(r.value, decode(text).value.Id()) == decode(text)
    ensures r.Ok? ==> forall id :: id != decode(text).value.Id() ==> SectionOf(r.value, id) == SectionOf(c, id)
  {
    match decode(text)
    case Some(s) => Ok(WithSection(c, s))
    case None => Err(InvalidJson)
  }

  /** Opening the editor and saving the untouched text leaves the
      configuration as it was when the section is present, and fills in
      the default section when it is missing; this needs the parser to
      invert the serialiser. */
  lemma {:induction false} OpenThenSave(c: Config, id: ComponentId, encode: Section -> string, decode: string -> Option<Section>)
    requires forall s :: decode(encode(s)) == Some(s)
    ensures SectionOf(c, id).Some? ==> Save(c, encode(SectionToEdit(c, id)), decode) == Ok(c)
    ensures SectionOf(c, id).None? ==>
              Save(c, encode(SectionToEdit(c, id)), decode) == Ok(WithSection(c, DefaultSection(id)))
  {
    var s := SectionToEdit(c, id);
    assert decode(encode(s)) == Some(s);
    if SectionOf(c, id).Some? {
      WithOwnSection(c, id);
    }
  }

  /** The editor of one section: whether the dialog is open, the text being
      edited and the error shown. */
  class Editor {
    const componentId: ComponentId
    var isOpen: bool
    var editableConfig: string
    var error: Option<string>

    constructor (componentId: ComponentId)
      ensures this.componentId == componentId
      ensures !isOpen && editableConfig == "" && error == None
    {
      this.componentId := componentId;
      isOpen, editableConfig, error := false, "", None;
    }

    /** `handleEdit`: load the section (or its default) as text and open
        the dialog. */
    method HandleEdit(store: ConfigProvider, encode: Section -> string)
      modifies this
      ensures editableConfig == encode(SectionToEdit(store.config, componentId))
      ensures isOpen
      ensures error == old(error)
    {
      editableConfig := encode(SectionToEdit(store.config, componentId));
      isOpen := true;
    }

    /** Typing in the text area. */
    method EditText(text: string)
      modifies this
      ensures editableConfig == text
      ensures isOpen == old(isOpen) && error == old(error)
    {
      editableConfig := text;
    }

    /** `handleSave`: on a successful parse, replace this editor's section
        in the store, clear the error and close; otherwise show the
        invalid-JSON message and keep the store and the dialog. */
    method HandleSave(store: ConfigProvider, decode: string -> Option<Section>)
      requires forall t :: decode(t).Some? ==> decode(t).value.Id() == componentId
      modifies this, store
      ensures editableConfig == old(editableConfig)
      ensures match Save(old(store.config), old(editableConfig), decode)
              case Ok(c) =>
                && store.config == c
                && store.storage == old(store.storage)[StorageKey := store.serialize(c)]
                && error == None && !isOpen
              case Err(message) =>
                && store.config == old(store.config) && store.storage == old(store.storage)
                && error == Some(message) && isOpen == old(isOpen)
    {
      match decode(editableConfig)
      case Some(s) =>
        store.UpdateConfig(WithSection(store.config, s));
        error := None;
        isOpen := false;
      case None =>
        error := Some(InvalidJson);
    }

    /** Cancel (or a click on the backdrop): close without touching the
        configuration. */
    method Cancel()
      modifies this
      ensures !isOpen
      ensures editableConfig == old(editableConfig) && error == old(error)
    {
      isOpen := false;
    }
  }
}
