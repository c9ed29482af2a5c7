/**
 * How the interface reacts to one event, as a function from the session
 * before to the session after and the effect asked for.
 */
module TuiUpdate {
  import opened Wrappers
  import opened Text
  import opened DocIndex
  import opened SearchQuery
  import opened Vault
  import opened TuiState
  import opened TuiView
  import Cli

  /**
   * The interface's own `expandHome`: only a leading `~/` is expanded, and
   * a home directory that cannot be found counts as empty.
   */
  function ExpandHomeLocal(p: string, home: string): string
  {
    if |p| >= 2 && p[..2] == "~/" then JoinPath(home, p[2..]) else p
  }

  /** `tab`: all, tags, headings, content, and round again. */
  function NextMode(m: Mode): Mode
  {
    match m
    case All => Tags
    case Tags => Headings
    case Headings => Content
    case Content => All
  }

  /** Every mode comes back after four steps and not before. */
  lemma NextModeCycle(m: Mode)
    ensures NextMode(NextMode(NextMode(NextMode(m)))) == m
    ensures NextMode(m) != m && NextMode(NextMode(m)) != m && NextMode(NextMode(NextMode(m))) != m
  {
  }

  predicate IsQuitKey(k: string)
  {
    k == "esc" || k == "ctrl+c" || k == "q"
  }

  /** The viewport scroll a key asks for while the preview has the focus. */
  function NavOp(k: string, vpHeight: int): Option<ScrollOp>
  {
    if k == "down" || k == "j" then Some(LineDown(1))
    else if k == "up" || k == "k" then Some(LineUp(1))
    else if k == "pgdown" || k == "ctrl+d" then Some(LineDown(vpHeight))
    else if k == "pgup" || k == "ctrl+u" then Some(LineUp(vpHeight))
    else if k == "home" || k == "g" then Some(GotoTop)
    else if k == "end" || k == "G" then Some(GotoBottom)
    else None
  }

  /** `ctrl+p`: the list gives the focus to the preview, anything else gives it to the list. */
  function ToggleFocus(s: Session): Session
  {
    if s.focus == "list" then s.(focus := "preview", status := "focus: preview (j/k, \U{2191}/\U{2193}, PgUp/PgDn, g/G)")
    else s.(focus := "list", status := "focus: list")
  }

  // ----------------------------------------------------------- vault cycle

  /** The position of the first `x` in `names`, or 0 when there is none. */
  function PositionOrZero(names: seq<string>, x: string): (i: nat)
    ensures i == 0 || i < |names|
    ensures i < |names| && names[i] == x ==> forall j :: 0 <= j < i ==> names[j] != x
    ensures x !in names ==> i == 0
    ensures x in names ==> i < |names| && names[i] == x
  {
    if names == [] then 0
    else if names[0] == x then 0
    else
      var i := PositionOrZero(names[1..], x);
      if x in names[1..] then i + 1 else 0
  }

  /** The vault `ctrl+v` switches to: the one after the current one in name order, round again. */
  function VaultTarget(s: Session): string
    requires |s.cfg.vaults.m| > 0
  {
    var names := NamesSpec(s.cfg.vaults);
    HasIffListed(s.cfg.vaults, s.cfg.vaultName);
    names[(PositionOrZero(names, s.cfg.vaultName) + 1) % |names|]
  }

  /**
   * `ctrl+v`: builds the index of the next vault; a failure only reports
   * itself, a success switches vault and index, drops the cache and
   * re-runs the search.
   */
  function VaultCycle(s: Session, env: Env): Session
    requires |s.cfg.vaults.m| > 0
  {
    var next := VaultTarget(s);
    var p := ExpandHomeLocal(Path(s.cfg.vaults, next).0, env.home);
    match BuildSpec(p, env.lookup(p))
    case Err(e) => s.(status := "vault switch failed: " + e)
    case Ok(idx) =>
      var s1 := s.(cfg := s.cfg.(vaultName := next, vaultPath := p), idx := idx, cache := map[], lastSelPath := "");
      Refresh(s1, env).(status := "vault: " + next)
  }

  /** `VaultCycle` for a given target directory and build outcome. */
  lemma VaultCycleCases(s: Session, env: Env, p: string, built: Result<Index, string>)
    requires |s.cfg.vaults.m| > 0
    requires p == ExpandHomeLocal(Path(s.cfg.vaults, VaultTarget(s)).0, env.home)
    requires built == BuildSpec(p, env.lookup(p))
    ensures built.Err? ==> VaultCycle(s, env) == s.(status := "vault switch failed: " + built.error)
    ensures built.Ok? ==>
      VaultCycle(s, env)
      == Refresh(s.(cfg := s.cfg.(vaultName := VaultTarget(s), vaultPath := p), idx := built.value,
                    cache := map[], lastSelPath := ""), env).(status := "vault: " + VaultTarget(s))
  {
  }

  // --------------------------------------------------- text input and list

  /** The text input takes the event; the search is re-run only when its text changed. */
  function TypeAndSearch(s: Session, msg: Msg, env: Env): Session
  {
    var input := env.typed(s.input.value, msg);
    if input != s.lastQuery then Refresh(s.(input := s.input.(value := input), lastQuery := input), env)
    else s.(input := s.input.(value := input))
  }

  /** The list with its cursor moved to `cursor`. */
  function MovedTo(s: Session, cursor: int): (t: Session)
    ensures t.list.cursor == cursor
  {
    s.(list := s.list.(cursor := cursor))
  }

  /** The preview scrolled to `yOffset`. */
  function Scrolled(s: Session, yOffset: int): (t: Session)
    ensures t.vp.yOffset == yOffset
  {
    s.(vp := s.vp.(yOffset := yOffset))
  }

  /** The preview follows the selection when it moved to another note. */
  function FollowSelection(s: Session, env: Env): Session
  {
    match Selected(s)
    case Some(it) => if it.path != s.lastSelPath then UpdatePreview(s.(lastSelPath := it.path), env) else s
    case None => s
  }

  /** What every event that no key binding consumed goes through: input, list, preview. */
  function Fallthrough(s: Session, msg: Msg, env: Env): Session
  {
    var s2 := TypeAndSearch(s, msg, env);
    var s3 := MovedTo(s2, env.listed(s2.list.cursor, |s2.list.items|, msg));
    var s4 := FollowSelection(s3, env);
    if s4.focus == "preview" then Scrolled(s4, env.viewport(s4.vp.yOffset, msg)) else s4
  }

  // ------------------------------------------------------------------ Update

  /** The vault cycle indexes the name list, so it needs at least one vault. */
  predicate CanStep(s: Session, msg: Msg)
  {
    msg == Key("ctrl+v") ==> |s.cfg.vaults.m| > 0
  }

  /** `Update`: the session after `msg` and the effect it asks for. */
  function Step(s: Session, msg: Msg, env: Env): (Session, Effect)
    requires CanStep(s, msg)
  {
    match msg
    case Resize(w, h) =>
      var s1 := Layout(s.(width := w, height := h), env);
      (UpdatePreview(s1.(lastSelPath := "", cache := map[]), env), NoEffect)
    case Key(k) =>
      if IsQuitKey(k) then (s, Quit)
      else if k == "ctrl+p" then (ToggleFocus(s), NoEffect)
      else if k == "enter" then
        match Selected(s)
        case None => (s, NoEffect)
        case Some(it) =>
          (s.(status := "opened in " + s.cfg.editorCmd + ": " + Base(it.path)), OpenInEditor(s.cfg.editorCmd, it.path))
      else if k == "ctrl+o" then
        match Selected(s)
        case None => (s, NoEffect)
        case Some(it) => (s.(status := "opened via macOS open"), OpenInMacOS(it.path))
      else if k == "ctrl+r" then (Refresh(s.(cfg := s.cfg.(rank := !s.cfg.rank)), env), NoEffect)
      else if k == "tab" then (Refresh(s.(cfg := s.cfg.(mode := NextMode(s.cfg.mode))), env), NoEffect)
      else if k == "ctrl+v" then (VaultCycle(s, env), NoEffect)
      else if s.focus == "preview" && NavOp(k, s.vp.height).Some? then
        (Scrolled(s, env.scrolled(s.vp.yOffset, NavOp(k, s.vp.height).value)), NoEffect)
      else (Fallthrough(s, msg, env), NoEffect)
    case Other(_) => (Fallthrough(s, msg, env), NoEffect)
  }

  // ------------------------------------------------------------ properties

  /** `esc`, `ctrl+c` and `q` quit whatever has the focus, before anything else, changing nothing. */
  lemma QuitKeysQuit(s: Session, k: string, env: Env)
    requires IsQuitKey(k)
    ensures Step(s, Key(k), env) == (s, Quit)
  {
  }

  /**
   * `ctrl+p` moves the focus between the list and the preview and says so
   * in the status line; nothing else changes, and a second press gives the
   * focus back.
   */
  lemma FocusToggle(s: Session, env: Env)
    ensures var (t, eff) := Step(s, Key("ctrl+p"), env);
      && eff == NoEffect
      && t.focus == (if s.focus == "list" then "preview" else "list")
      && t == s.(focus := t.focus, status := t.status)
      && (s.focus in {"list", "preview"} ==> Step(t, Key("ctrl+p"), env).0.focus == s.focus)
  {
  }

  /** A refresh keeps the configuration, the index, the query, the focus and the status. */
  lemma RefreshKeeps(s: Session, env: Env)
    ensures var t := Refresh(s, env);
      t.cfg == s.cfg && t.idx == s.idx && t.input == s.input && t.lastQuery == s.lastQuery
      && t.focus == s.focus && t.status == s.status
  {
    RefreshListsResults(s, env);
  }

  /** A refresh lists the results of the session's own search. */
  lemma RefreshItems(s: Session, env: Env)
    ensures Refresh(s, env).list.items == ItemsFor(Results(s), s.cfg.rank)
  {
    var rs := Results(s);
    var s1 := Relisted(s, rs, env);
    UpdatePreviewFrame(s1, env);
  }

  /** `tab` switches to the next mode and searches again. */
  lemma StepTab(s: Session, env: Env)
    ensures Step(s, Key("tab"), env) == (Refresh(s.(cfg := s.cfg.(mode := NextMode(s.cfg.mode))), env), NoEffect)
  {
  }

  /** `ctrl+r` flips ranking and searches again. */
  lemma StepRank(s: Session, env: Env)
    ensures Step(s, Key("ctrl+r"), env) == (Refresh(s.(cfg := s.cfg.(rank := !s.cfg.rank)), env), NoEffect)
  {
  }

  /** `ctrl+v` cycles the vault. */
  lemma StepVault(s: Session, env: Env)
    requires |s.cfg.vaults.m| > 0
    ensures Step(s, Key("ctrl+v"), env) == (VaultCycle(s, env), NoEffect)
  {
  }

  /** A search with the next mode, listed; four presses of `tab` give back the mode. */
  lemma TabCyclesModes(s: Session, env: Env)
    ensures var t1 := Step(s, Key("tab"), env).0;
      var t2 := Step(t1, Key("tab"), env).0;
      var t3 := Step(t2, Key("tab"), env).0;
      var t4 := Step(t3, Key("tab"), env).0;
      && t1.cfg == s.cfg.(mode := NextMode(s.cfg.mode))
      && t1.list.items == ItemsFor(Results(s.(cfg := t1.cfg)), s.cfg.rank)
      && t4.cfg == s.cfg
  {
    var t1 := Step(s, Key("tab"), env).0;
    StepTab(s, env);
    RefreshKeeps(s.(cfg := s.cfg.(mode := NextMode(s.cfg.mode))), env);
    RefreshItems(s.(cfg := s.cfg.(mode := NextMode(s.cfg.mode))), env);
    var t2 := Step(t1, Key("tab"), env).0;
    StepTab(t1, env);
    RefreshKeeps(t1.(cfg := t1.cfg.(mode := NextMode(t1.cfg.mode))), env);
    var t3 := Step(t2, Key("tab"), env).0;
    StepTab(t2, env);
    RefreshKeeps(t2.(cfg := t2.cfg.(mode := NextMode(t2.cfg.mode))), env);
    StepTab(t3, env);
    RefreshKeeps(t3.(cfg := t3.cfg.(mode := NextMode(t3.cfg.mode))), env);
    NextModeCycle(s.cfg.mode);
  }

  /** `ctrl+r` flips ranking and searches again; two presses give back the setting. */
  lemma RankToggleTwice(s: Session, env: Env)
    ensures var t1 := Step(s, Key("ctrl+r"), env).0;
      var t2 := Step(t1, Key("ctrl+r"), env).0;
      && t1.cfg == s.cfg.(rank := !s.cfg.rank)
      && t1.list.items == ItemsFor(Results(s.(cfg := t1.cfg)), !s.cfg.rank)
      && t2.cfg == s.cfg
  {
    var t1 := Step(s, Key("ctrl+r"), env).0;
    StepRank(s, env);
    RefreshKeeps(s.(cfg := s.cfg.(rank := !s.cfg.rank)), env);
    RefreshItems(s.(cfg := s.cfg.(rank := !s.cfg.rank)), env);
    StepRank(t1, env);
    RefreshKeeps(t1.(cfg := t1.cfg.(rank := !t1.cfg.rank)), env);
  }

  /** Strictly ascending names have no repeats. */
  lemma SortedDistinct(names: seq<string>, i: nat, j: nat)
    requires StrictlySorted(names) && i < |names| && j < |names| && names[i] == names[j]
    ensures i == j
  {
    if i < j { StrLessIrreflexive(names[i]); }
    if j < i { StrLessIrreflexive(names[j]); }
  }

  /** The next vault after the one at position `i` of the name list, round again. */
  lemma VaultTargetAfter(s: Session, i: nat)
    requires |s.cfg.vaults.m| > 0
    requires i < |NamesSpec(s.cfg.vaults)| && NamesSpec(s.cfg.vaults)[i] == s.cfg.vaultName
    ensures VaultTarget(s) == NamesSpec(s.cfg.vaults)[(i + 1) % |NamesSpec(s.cfg.vaults)|]
  {
    var names := NamesSpec(s.cfg.vaults);
    SortedKeysShape(s.cfg.vaults.m.Keys);
    var c := PositionOrZero(names, s.cfg.vaultName);
    SortedDistinct(names, c, i);
  }

  /**
   * The next vault is always a configured one: the second name when the
   * current vault is not configured, and never the current vault when there
   * are at least two.
   */
  lemma VaultTargetSpec(s: Session)
    requires |s.cfg.vaults.m| > 0
    ensures var names := NamesSpec(s.cfg.vaults);
      && |names| == |s.cfg.vaults.m|
      && Has(s.cfg.vaults, VaultTarget(s))
      && (!Has(s.cfg.vaults, s.cfg.vaultName) ==> VaultTarget(s) == names[1 % |names|])
      && (Has(s.cfg.vaults, s.cfg.vaultName) && |names| >= 2 ==> VaultTarget(s) != s.cfg.vaultName)
  {
    var names := NamesSpec(s.cfg.vaults);
    HasIffListed(s.cfg.vaults, s.cfg.vaultName);
    HasIffListed(s.cfg.vaults, VaultTarget(s));
    SortedKeysShape(s.cfg.vaults.m.Keys);
    var c := PositionOrZero(names, s.cfg.vaultName);
    if Has(s.cfg.vaults, s.cfg.vaultName) && |names| >= 2 {
      var j := (c + 1) % |names|;
      if names[j] == s.cfg.vaultName {
        SortedDistinct(names, c, j);
      }
    }
  }

  /** A vault switch whose index cannot be built only reports the error. */
  lemma VaultSwitchFailure(s: Session, env: Env)
    requires |s.cfg.vaults.m| > 0
    ensures var p := ExpandHomeLocal(Path(s.cfg.vaults, VaultTarget(s)).0, env.home);
      BuildSpec(p, env.lookup(p)).Err? ==>
        Step(s, Key("ctrl+v"), env) == (s.(status := "vault switch failed: " + BuildSpec(p, env.lookup(p)).error), NoEffect)
  {
    StepVault(s, env);
  }

  /**
   * A successful vault switch moves to the next vault and its index, lists
   * the search over the new index, and starts the cache afresh: it holds at
   * most the preview of the selected note.
   */
  lemma VaultSwitchSuccess(s: Session, env: Env)
    requires |s.cfg.vaults.m| > 0
    ensures var next := VaultTarget(s);
      var p := ExpandHomeLocal(Path(s.cfg.vaults, next).0, env.home);
      var t := Step(s, Key("ctrl+v"), env).0;
      BuildSpec(p, env.lookup(p)).Ok? ==>
        && t.cfg == s.cfg.(vaultName := next, vaultPath := p)
        && t.idx == BuildSpec(p, env.lookup(p)).value
        && t.list.items == ItemsFor(SearchRank.SearchSpec(t.idx.docs, Parse(s.input.value), s.cfg.mode, s.cfg.rank), s.cfg.rank)
        && t.status == "vault: " + next
        && t.lastSelPath == ""
        && |t.cache| <= 1
  {
    StepVault(s, env);
    var next := VaultTarget(s);
    var p := ExpandHomeLocal(Path(s.cfg.vaults, next).0, env.home);
    if BuildSpec(p, env.lookup(p)).Ok? {
      var s1 := s.(cfg := s.cfg.(vaultName := next, vaultPath := p), idx := BuildSpec(p, env.lookup(p)).value,
                   cache := map[], lastSelPath := "");
      RefreshKeeps(s1, env);
      RefreshItems(s1, env);
      RefreshClearsSelPath(s1, env);
      CacheAfterRefresh(s1, env);
    }
  }

  lemma RefreshClearsSelPath(s: Session, env: Env)
    ensures Refresh(s, env).lastSelPath == ""
  {
    var rs := Results(s);
    var s1 := Relisted(s, rs, env);
    UpdatePreviewFrame(s1, env);
  }

  /** A refresh adds at most one entry to the cache. */
  lemma CacheAfterRefresh(s: Session, env: Env)
    ensures |Refresh(s, env).cache| <= |s.cache| + 1
  {
    var rs := Results(s);
    var s1 := Relisted(s, rs, env);
    UpdatePreviewFrame(s1, env);
    var t := Refresh(s, env);
    var key := SelectedKey(s1, t);
    if t.cache != s.cache {
      assert t.cache.Keys == s.cache.Keys + {key};
    }
  }

  /** With the preview focused, a navigation key only scrolls the preview. */
  lemma PreviewNavigationOnlyScrolls(s: Session, k: string, env: Env)
    requires s.focus == "preview" && NavOp(k, s.vp.height).Some?
    ensures Step(s, Key(k), env) == (Scrolled(s, env.scrolled(s.vp.yOffset, NavOp(k, s.vp.height).value)), NoEffect)
  {
  }

  /** With the list focused, the same key goes to the query input like any other. */
  lemma ListFocusNavigationTypes(s: Session, k: string, env: Env)
    requires s.focus == "list" && NavOp(k, s.vp.height).Some?
    ensures Step(s, Key(k), env) == (Fallthrough(s, Key(k), env), NoEffect)
  {
    assert !IsQuitKey(k) && k !in {"ctrl+p", "enter", "ctrl+o", "ctrl+r", "tab", "ctrl+v"};
  }

  /**
   * An event the key bindings leave alone searches again exactly when it
   * changed the query text, and `lastQuery` then follows the text; the
   * configuration, the index, the focus and the status do not change.
   */
  lemma ResearchOnlyOnChange(s: Session, msg: Msg, env: Env)
    ensures var input := env.typed(s.input.value, msg);
      var t := TypeAndSearch(s, msg, env);
      && t.input == s.input.(value := input) && t.lastQuery == (if input != s.lastQuery then input else s.lastQuery)
      && (input != s.lastQuery ==> t.list.items == ItemsFor(Results(s.(input := t.input)), s.cfg.rank))
      && (input == s.lastQuery ==> t == s.(input := t.input))
      && t.cfg == s.cfg && t.idx == s.idx && t.focus == s.focus && t.status == s.status
  {
    var input := env.typed(s.input.value, msg);
    if input != s.lastQuery {
      RefreshItems(s.(input := s.input.(value := input), lastQuery := input), env);
      RefreshKeeps(s.(input := s.input.(value := input), lastQuery := input), env);
    }
  }

  /**
   * A resize lays the panes out for the new size, forgets the last previewed
   * path and clears the cache before the one preview it renders.
   */
  lemma ResizeClearsCache(s: Session, w: int, h: int, env: Env)
    ensures var (t, eff) := Step(s, Resize(w, h), env);
      && eff == NoEffect
      && t.width == w && t.height == h
      && t.vp.height == BodyH(h) && t.vp.width >= 20
      && t.lastSelPath == ""
      && |t.cache| <= 1
      && t.list.items == s.list.items && t.input.value == s.input.value && t.cfg == s.cfg && t.focus == s.focus
  {
    var s1 := Layout(s.(width := w, height := h), env);
    var s2 := s1.(lastSelPath := "", cache := map[]);
    UpdatePreviewFrame(s2, env);
    var t := Step(s, Resize(w, h), env).0;
    if t.cache != map[] {
      assert t.cache.Keys == {SelectedKey(s2, t)};
    }
  }

  /** `enter` and `ctrl+o` open the selected note, reporting it; with no selection they do nothing. */
  lemma OpenKeys(s: Session, env: Env)
    ensures Selected(s).None? ==> Step(s, Key("enter"), env) == (s, NoEffect) && Step(s, Key("ctrl+o"), env) == (s, NoEffect)
    ensures Selected(s).Some? ==>
      var path := Selected(s).value.path;
      && Step(s, Key("enter"), env) == (s.(status := "opened in " + s.cfg.editorCmd + ": " + Base(path)), OpenInEditor(s.cfg.editorCmd, path))
      && Step(s, Key("ctrl+o"), env) == (s.(status := "opened via macOS open"), OpenInMacOS(path))
  {
  }

  /** The focus is always the list or the preview. */
  lemma FocusStaysValid(s: Session, msg: Msg, env: Env)
    requires CanStep(s, msg) && s.focus in {"list", "preview"}
    ensures Step(s, msg, env).0.focus in {"list", "preview"}
  {
    match msg
    case Resize(w, h) =>
      UpdatePreviewFrame(Layout(s.(width := w, height := h), env).(lastSelPath := "", cache := map[]), env);
    case Key(k) =>
      if k == "ctrl+r" {
        StepRank(s, env);
        RefreshKeeps(s.(cfg := s.cfg.(rank := !s.cfg.rank)), env);
      } else if k == "tab" {
        StepTab(s, env);
        RefreshKeeps(s.(cfg := s.cfg.(mode := NextMode(s.cfg.mode))), env);
      } else if k == "ctrl+v" {
        StepVault(s, env);
        var next := VaultTarget(s);
        var p := ExpandHomeLocal(Path(s.cfg.vaults, next).0, env.home);
        VaultCycleCases(s, env, p, BuildSpec(p, env.lookup(p)));
        if BuildSpec(p, env.lookup(p)).Ok? {
          RefreshKeeps(s.(cfg := s.cfg.(vaultName := next, vaultPath := p), idx := BuildSpec(p, env.lookup(p)).value,
                          cache := map[], lastSelPath := ""), env);
        }
      } else if IsQuitKey(k) || k in {"ctrl+p", "enter", "ctrl+o"} {
      } else if s.focus == "preview" && NavOp(k, s.vp.height).Some? {
      } else {
        FallthroughKeepsFocus(s, msg, env);
      }
    case Other(_) =>
      FallthroughKeepsFocus(s, msg, env);
  }

  lemma FallthroughKeepsFocus(s: Session, msg: Msg, env: Env)
    ensures Fallthrough(s, msg, env).focus == s.focus
  {
    ResearchOnlyOnChange(s, msg, env);
    var s2 := TypeAndSearch(s, msg, env);
    var s3 := MovedTo(s2, env.listed(s2.list.cursor, |s2.list.items|, msg));
    match Selected(s3)
    case Some(it) =>
      if it.path != s3.lastSelPath {
        UpdatePreviewFrame(s3.(lastSelPath := it.path), env);
      }
    case None =>
  }

  /**
   * The local `expandHome` agrees with the command line's whenever the
   * home directory is known, except on a bare `~`, which it leaves alone;
   * a home that cannot be found turns `~/rest` into `rest`.
   */
  lemma ExpandHomeLocalAgrees(p: string, home: string)
    ensures p != "~" ==> ExpandHomeLocal(p, home) == Cli.ExpandHome(p, Ok(home))
    ensures ExpandHomeLocal("~", home) == "~" && Cli.ExpandHome("~", Ok(home)) == home
    ensures |p| >= 2 && p[..2] == "~/" ==> ExpandHomeLocal(p, "") == p[2..]
  {
  }
}
