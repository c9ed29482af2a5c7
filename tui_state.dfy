/**
 * The state of the terminal interface, as plain values: its configuration,
 * the list items, the events it receives, the effects it asks for, and the
 * behaviour of the widgets and libraries it delegates to.
 */
module TuiState {
  import opened Wrappers
  import opened Text
  import opened DocIndex
  import opened SearchQuery
  import opened Vault

  /** How the interface was started. */
  datatype Config = Config(
    vaultName: string,
    vaultPath: string,
    vaults: Vaults,
    mode: Mode,
    rank: bool,
    editorCmd: string,
    initialQ: string,
    showHidden: bool)

  /** A list entry: one search result; its `Title` and `Description` are the first two fields. */
  datatype Item = Item(title: string, desc: string, path: string, doc: Doc, score: int)

  /** The text the list filters on: the title, a space, the description. */
  function FilterValue(it: Item): (r: string)
    ensures |r| == |it.title| + 1 + |it.desc|
    ensures r[..|it.title|] == it.title && r[|it.title|] == ' ' && r[|it.title| + 1..] == it.desc
  {
    it.title + " " + it.desc
  }

  /** The query input: its text and its width. */
  datatype TextInput = TextInput(value: string, width: int)

  /** The result list: its items, the cursor and its size. */
  datatype ListView = ListView(items: seq<Item>, cursor: int, width: int, height: int)

  /** The preview pane: its size, how far it is scrolled, and the text it shows. */
  datatype Viewport = Viewport(width: int, height: int, yOffset: int, content: string)

  /**
   * Everything the interface keeps between events, field by field as the
   * model holds it; `renderer` is the wrap width of the markdown renderer,
   * when one has been built.
   */
  datatype Session = Session(
    cfg: Config,
    idx: Index,
    input: TextInput,
    list: ListView,
    vp: Viewport,
    renderer: Option<int>,
    renderWrap: int,
    cache: map<string, string>,
    focus: string,
    lastQuery: string,
    lastSelPath: string,
    width: int,
    height: int,
    status: string)

  /** An event: a terminal resize, a key press, or anything else the widgets receive. */
  datatype Msg = Resize(w: int, h: int) | Key(key: string) | Other(tag: string)

  /** What an event asks the outside world to do. */
  datatype Effect = NoEffect | Quit | OpenInEditor(editor: string, path: string) | OpenInMacOS(path: string)

  /** A viewport scroll. */
  datatype ScrollOp = LineDown(n: int) | LineUp(n: int) | GotoTop | GotoBottom

  /**
   * The outside world and the foreign widgets, as functions: reading a file,
   * rendering markdown at a wrap width, the directory tree at a path, the
   * home directory (empty when it cannot be found), the truncated 45% split
   * of a width, the text input's and the list's reaction to an event, where
   * the list cursor lands after its items are replaced, and the viewport's
   * scrolling.
   */
  datatype Env = Env(
    read: string -> Result<string, string>,
    render: (int, string) -> Result<string, string>,
    lookup: string -> Result<Entry, string>,
    home: string,
    split: int -> int,
    typed: (string, Msg) -> string,
    listed: (int, int, Msg) -> int,
    kept: (int, int) -> int,
    scrolled: (int, ScrollOp) -> int,
    viewport: (int, Msg) -> int)

  /** The list's selected item, if the cursor is on one. */
  function Selected(s: Session): (r: Option<Item>)
    ensures r.Some? <==> 0 <= s.list.cursor < |s.list.items|
    ensures r.Some? ==> r.value in s.list.items
  {
    if 0 <= s.list.cursor < |s.list.items| then Some(s.list.items[s.list.cursor]) else None
  }
}
