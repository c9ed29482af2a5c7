/**
 * The interface's view helpers as functions of the session: the layout,
 * re-running the search into the list, the markdown renderer, and the
 * cached preview of the selected note.
 */
module TuiView {
  import opened Wrappers
  import opened Text
  import opened DocIndex
  import opened SearchQuery
  import SearchRank
  import opened TuiState

  function Max(a: int, b: int): (r: int)
    ensures r >= a && r >= b && (r == a || r == b)
  {
    if a > b then a else b
  }

  /** The label of a mode in the status line. */
  function MapMode(m: Mode): string
  {
    match m
    case Tags => "tags"
    case Headings => "title"
    case Content => "content"
    case All => "all"
  }

  /** Different modes have different labels. */
  lemma MapModeInjective(a: Mode, b: Mode)
    ensures MapMode(a) == MapMode(b) ==> a == b
    ensures MapMode(a) in {"tags", "title", "content", "all"}
  {
  }

  /** The height of the list and the preview: the window less the three top lines, at least 1. */
  function BodyH(height: int): (r: int)
    ensures r >= 1 && r >= height - 3
    ensures r == 1 || r == height - 3
  {
    Max(1, height - 3)
  }

  /** `layout`: sizes the input, the list and the preview to the window. */
  function Layout(s: Session, env: Env): (t: Session)
    ensures t.list.height == t.vp.height == BodyH(s.height)
    ensures t.list.width >= 30 && t.vp.width >= 20
    ensures t.input == s.input.(width := s.width - 2)
    ensures t.list == s.list.(width := t.list.width, height := t.list.height)
    ensures t.vp == s.vp.(width := t.vp.width, height := t.vp.height)
    ensures t == s.(input := t.input, list := t.list, vp := t.vp)
  {
    var bodyH := BodyH(s.height);
    var leftW := Max(30, env.split(s.width));
    var rightW := Max(20, s.width - leftW - 1);
    s.(input := s.input.(width := s.width - 2),
       list := s.list.(width := leftW, height := bodyH),
       vp := s.vp.(width := rightW, height := bodyH))
  }

  // -------------------------------------------------------------- renderer

  /** The renderer's wrap width: the preview width, at least 20. */
  function WrapFor(vpWidth: int): (w: int)
    ensures w >= 20 && w >= vpWidth && (w == 20 || w == vpWidth)
  {
    if vpWidth < 20 then 20 else vpWidth
  }

  /** `ensureRenderer`: builds a renderer unless one exists for the current wrap width. */
  function EnsureRenderer(s: Session): Session
  {
    var wrap := WrapFor(s.vp.width);
    if s.renderer.Some? && s.renderWrap == wrap then s
    else s.(renderer := Some(wrap), renderWrap := wrap)
  }

  /**
   * Afterwards a renderer exists for the current wrap width; it is rebuilt
   * exactly when there was none or it was built for another width, and
   * nothing else changes.
   */
  lemma EnsureRendererSpec(s: Session)
    ensures var t := EnsureRenderer(s);
      && t.renderWrap == WrapFor(s.vp.width) && t.renderer.Some?
      && (t == s <==> s.renderer.Some? && s.renderWrap == WrapFor(s.vp.width))
      && t == s.(renderer := t.renderer, renderWrap := t.renderWrap)
      && (s.renderer.None? || s.renderWrap != WrapFor(s.vp.width) ==> t.renderer == Some(WrapFor(s.vp.width)))
      && (s.renderer.None? || s.renderer == Some(s.renderWrap) ==> t.renderer == Some(t.renderWrap))
  {
  }

  // --------------------------------------------------------------- preview

  /** The preview cache key: the path and the wrap width. */
  function CacheKey(path: string, wrap: int): string
  {
    path + "|" + IntToString(wrap)
  }

  /** The title line and the relative path put above the note in the preview. */
  function PreviewHeader(d: Doc): string
  {
    "# " + d.title + "\n\n`" + d.pathRel + "`\n\n"
  }

  /** The preview pane showing `text`. */
  function SetContent(s: Session, text: string): (t: Session)
    ensures t.vp.content == text
  {
    s.(vp := s.vp.(content := text))
  }

  /**
   * `updatePreview`: shows the selected note, from the cache when it holds
   * the note at the current wrap width; otherwise reads and renders it,
   * caching only a successful rendering.
   */
  function UpdatePreview(s: Session, env: Env): Session
  {
    match Selected(s)
    case None => SetContent(s, "")
    case Some(it) =>
      var s1 := EnsureRenderer(s);
      var key := CacheKey(it.path, s1.renderWrap);
      if key in s1.cache then SetContent(s1, s1.cache[key])
      else
        match env.read(it.path)
        case Err(e) => SetContent(s1, "preview error: " + e)
        case Ok(b) =>
          var md := PreviewHeader(it.doc) + b;
          match env.render(s1.renderWrap, md)
          case Err(_) => SetContent(s1, md)
          case Ok(out) => SetContent(s1.(cache := s1.cache[key := out]), out)
  }

  /** `t` holds the cache `c`, or `c` with the entry for `key` set. */
  predicate CacheGrowsBy(c: map<string, string>, t: map<string, string>, key: string)
  {
    t == c || (key in t && t == c[key := t[key]])
  }

  /** The key under which the selected note is cached after a preview. */
  function SelectedKey(s: Session, t: Session): string
  {
    match Selected(s)
    case None => ""
    case Some(it) => CacheKey(it.path, t.renderWrap)
  }

  /**
   * A preview changes only the content, the renderer and the cache, and the
   * cache only by the entry for the selected note.
   */
  lemma UpdatePreviewFrame(s: Session, env: Env)
    ensures var t := UpdatePreview(s, env);
      && t == s.(vp := t.vp, renderer := t.renderer, renderWrap := t.renderWrap, cache := t.cache)
      && t.vp == s.vp.(content := t.vp.content)
      && CacheGrowsBy(s.cache, t.cache, SelectedKey(s, t))
  {
    var t := UpdatePreview(s, env);
    match Selected(s)
    case None =>
    case Some(it) =>
      var s1 := EnsureRenderer(s);
      EnsureRendererSpec(s);
      var key := CacheKey(it.path, s1.renderWrap);
      assert SelectedKey(s, t) == key;
      if key !in s1.cache && env.read(it.path).Ok? {
        var md := PreviewHeader(it.doc) + env.read(it.path).value;
        if env.render(s1.renderWrap, md).Ok? {
          assert t.cache == s.cache[key := env.render(s1.renderWrap, md).value];
        }
      }
  }

  /** With nothing selected the preview is cleared and nothing else changes. */
  lemma PreviewWithoutSelection(s: Session, env: Env)
    requires Selected(s).None?
    ensures UpdatePreview(s, env) == SetContent(s, "")
  {
  }

  /**
   * On a cache hit the cached text is shown, and the result does not depend
   * on the file system: no file is read.
   */
  lemma PreviewCacheHit(s: Session, env: Env, read: string -> Result<string, string>)
    requires Selected(s).Some?
    requires CacheKey(Selected(s).value.path, WrapFor(s.vp.width)) in s.cache
    ensures var t := UpdatePreview(s, env);
      && t.vp.content == s.cache[CacheKey(Selected(s).value.path, WrapFor(s.vp.width))]
      && t.cache == s.cache
      && t == UpdatePreview(s, env.(read := read))
  {
  }

  /**
   * On a miss: a read error shows the error, a rendering error shows the
   * header and the raw note, and neither touches the cache; a successful
   * rendering is shown and cached under the note's key.
   */
  lemma PreviewCacheMiss(s: Session, env: Env)
    requires Selected(s).Some?
    requires CacheKey(Selected(s).value.path, WrapFor(s.vp.width)) !in s.cache
    ensures var it := Selected(s).value;
      var wrap := WrapFor(s.vp.width);
      var key := CacheKey(it.path, wrap);
      var t := UpdatePreview(s, env);
      && t.renderWrap == wrap
      && (env.read(it.path).Err? ==> t.vp.content == "preview error: " + env.read(it.path).error && t.cache == s.cache)
      && (env.read(it.path).Ok? ==>
            var md := PreviewHeader(it.doc) + env.read(it.path).value;
            && (env.render(wrap, md).Err? ==> t.vp.content == md && t.cache == s.cache)
            && (env.render(wrap, md).Ok? ==>
                  t.vp.content == env.render(wrap, md).value && t.cache == s.cache[key := t.vp.content]))
  {
  }

  // ---------------------------------------------------------------- results

  /** The list entry of a result: its description is the relative path, behind `[score] ` when ranking. */
  function ItemFor(r: SearchRank.Result, rank: bool): Item
  {
    Item(r.doc.title,
         if rank then "[" + IntToString(r.score) + "] " + r.doc.pathRel else r.doc.pathRel,
         r.doc.pathAbs, r.doc, r.score)
  }

  function ItemsFor(rs: seq<SearchRank.Result>, rank: bool): (items: seq<Item>)
    ensures |items| == |rs|
  {
    seq(|rs|, i requires 0 <= i < |rs| => ItemFor(rs[i], rank))
  }

  /** The search the session's query, mode and rank ask for. */
  function Results(s: Session): seq<SearchRank.Result>
  {
    SearchRank.SearchSpec(s.idx.docs, Parse(s.input.value), s.cfg.mode, s.cfg.rank)
  }

  /** The list showing `results`, its cursor where the list puts it, and no last previewed path. */
  function Relisted(s: Session, results: seq<SearchRank.Result>, env: Env): (t: Session)
    ensures |t.list.items| == |results|
  {
    s.(list := s.list.(items := ItemsFor(results, s.cfg.rank), cursor := env.kept(s.list.cursor, |results|)),
       lastSelPath := "")
  }

  /**
   * `refreshResults`: puts the results of the current query into the list,
   * forgets the last previewed path and previews the selection.
   */
  function Refresh(s: Session, env: Env): Session
  {
    var results := Results(s);
    var s1 := Relisted(s, results, env);
    UpdatePreview(s1, env)
  }

  /**
   * After a refresh the list holds one entry per search result, in result
   * order, each with the result's note, score, title and path and the
   * description the rank setting calls for; `lastSelPath` is empty; only
   * the list, the preview and the cache change.
   */
  lemma RefreshListsResults(s: Session, env: Env)
    ensures var t := Refresh(s, env);
      var rs := Results(s);
      && |t.list.items| == |rs|
      && (forall i :: 0 <= i < |rs| ==>
            && t.list.items[i].doc == rs[i].doc && t.list.items[i].score == rs[i].score
            && t.list.items[i].title == rs[i].doc.title && t.list.items[i].path == rs[i].doc.pathAbs
            && t.list.items[i].desc == (if s.cfg.rank then "[" + IntToString(rs[i].score) + "] " else "") + rs[i].doc.pathRel)
      && t.lastSelPath == ""
      && t.list == s.list.(items := t.list.items, cursor := t.list.cursor)
      && t.vp == s.vp.(content := t.vp.content)
      && t == s.(list := t.list, lastSelPath := "", vp := t.vp,
                 renderer := t.renderer, renderWrap := t.renderWrap, cache := t.cache)
  {
    var rs := Results(s);
    var s1 := Relisted(s, rs, env);
    UpdatePreviewFrame(s1, env);
    forall i | 0 <= i < |rs| && !s.cfg.rank ensures ("" + rs[i].doc.pathRel) == rs[i].doc.pathRel {
    }
  }

  // ------------------------------------------------------------ constructor

  /** `NewModel`: the session before its first search. */
  function Initial(cfg: Config, idx: Index): Session
  {
    Session(cfg, idx, TextInput(cfg.initialQ, 0), ListView([], 0, 0, 0), Viewport(0, 0, 0, ""), None, 0, map[],
            "list", cfg.initialQ, "", 0, 0, "")
  }

  /** `NewModel`: the initial session after the search for the initial query. */
  function NewSession(cfg: Config, idx: Index, env: Env): Session
  {
    Refresh(Initial(cfg, idx), env)
  }

  /**
   * A new session focuses the list, has typed and searched the initial
   * query (so the first event does not search again), lists its results,
   * has no last previewed path, and has built a renderer only if a note is
   * selected, caching at most that note's preview.
   */
  lemma NewSessionSpec(cfg: Config, idx: Index, env: Env)
    ensures var t := NewSession(cfg, idx, env);
      && t.focus == "list" && t.input.value == cfg.initialQ && t.lastQuery == cfg.initialQ
      && t.lastSelPath == "" && t.cfg == cfg && t.idx == idx && t.status == ""
      && t.list.items == ItemsFor(SearchRank.SearchSpec(idx.docs, Parse(cfg.initialQ), cfg.mode, cfg.rank), cfg.rank)
      && (Selected(t).None? ==> t.renderer.None? && t.renderWrap == 0 && t.cache == map[] && t.vp.content == "")
      && (Selected(t).Some? ==> t.renderer == Some(20) && t.renderWrap == 20 && |t.cache| <= 1)
  {
    var s := Initial(cfg, idx);
    RefreshListsResults(s, env);
    var rs := Results(s);
    var s1 := Relisted(s, rs, env);
    UpdatePreviewFrame(s1, env);
    var t := NewSession(cfg, idx, env);
    if Selected(t).Some? {
      var key := SelectedKey(s1, t);
      assert t.cache == map[] || t.cache == map[][key := t.cache[key]];
    }
  }
}
