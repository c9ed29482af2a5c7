/**
 * The interface's model object: its fields are updated in place by the
 * helpers and by `Update`, and each method is proved to leave the state the
 * session functions describe.
 */
module TuiModel {
  import opened Wrappers
  import opened Text
  import opened DocIndex
  import opened SearchQuery
  import SearchRank
  import opened Vault
  import opened TuiState
  import TuiView
  import TuiUpdate

  /** A position the search loop stopped at is the first occurrence, or 0 when there is none. */
  lemma FirstPosition(names: seq<string>, x: string, cur: nat)
    requires cur < |names| || cur == 0
    requires x in names ==> cur < |names| && names[cur] == x && forall j :: 0 <= j < cur ==> names[j] != x
    requires x !in names ==> cur == 0
    ensures cur == TuiUpdate.PositionOrZero(names, x)
  {
  }

  class Model {
    var cfg: Config
    var idx: Index
    var input: TextInput
    var list: ListView
    var vp: Viewport
    var renderer: Option<int>
    var renderWrap: int
    var cache: map<string, string>
    var focus: string
    var lastQuery: string
    var lastSelPath: string
    var width: int
    var height: int
    var status: string

    /** The fields as a session value. */
    function State(): Session
      reads this
    {
      Session(cfg, idx, input, list, vp, renderer, renderWrap, cache, focus, lastQuery, lastSelPath, width, height, status)
    }

    /** `NewModel`: the initial query typed in, the list focused, then one search. */
    constructor (c: Config, index: Index, env: Env)
      ensures State() == TuiView.NewSession(c, index, env)
    {
      cfg := c;
      idx := index;
      input := TextInput(c.initialQ, 0);
      list := ListView([], 0, 0, 0);
      vp := Viewport(0, 0, 0, "");
      renderer := None;
      renderWrap := 0;
      cache := map[];
      focus := "list";
      lastQuery := c.initialQ;
      lastSelPath := "";
      width, height := 0, 0;
      status := "";
      new;
      RefreshResults(env);
    }

    /** `layout`. */
    method Layout(env: Env)
      modifies this
      ensures State() == TuiView.Layout(old(State()), env)
    {
      var bodyH := TuiView.Max(1, height - 3);
      var leftW := TuiView.Max(30, env.split(width));
      var rightW := TuiView.Max(20, width - leftW - 1);
      input := input.(width := width - 2);
      list := list.(width := leftW, height := bodyH);
      vp := vp.(width := rightW, height := bodyH);
    }

    /** `ensureRenderer`. */
    method EnsureRenderer()
      modifies this
      ensures State() == TuiView.EnsureRenderer(old(State()))
    {
      var wrap := vp.width;
      if wrap < 20 {
        wrap := 20;
      }
      if renderer.Some? && renderWrap == wrap {
        return;
      }
      renderer := Some(wrap);
      renderWrap := wrap;
    }

    /** `updatePreview`. */
    method UpdatePreview(env: Env)
      modifies this
      ensures State() == TuiView.UpdatePreview(old(State()), env)
    {
      if !(0 <= list.cursor < |list.items|) {
        vp := vp.(content := "");
        return;
      }
      var it := list.items[list.cursor];
      EnsureRenderer();
      var key := TuiView.CacheKey(it.path, renderWrap);
      if key in cache {
        vp := vp.(content := cache[key]);
        return;
      }
      var b := env.read(it.path);
      if b.Err? {
        vp := vp.(content := "preview error: " + b.error);
        return;
      }
      var md := TuiView.PreviewHeader(it.doc) + b.value;
      var out := env.render(renderWrap, md);
      if out.Err? {
        vp := vp.(content := md);
        return;
      }
      cache := cache[key := out.value];
      vp := vp.(content := out.value);
    }

    /** `refreshResults`. */
    method RefreshResults(env: Env)
      modifies this
      ensures State() == TuiView.Refresh(old(State()), env)
    {
      ghost var s0 := State();
      var q := Parse(input.value);
      var results := SearchRank.Search(idx, q, cfg.mode, cfg.rank);
      assert results == TuiView.Results(s0);
      var newItems: seq<Item> := [];
      for i := 0 to |results|
        invariant |newItems| == i
        invariant forall j :: 0 <= j < i ==> newItems[j] == TuiView.ItemFor(results[j], cfg.rank)
      {
        var r := results[i];
        var desc := r.doc.pathRel;
        if cfg.rank {
          desc := "[" + IntToString(r.score) + "] " + r.doc.pathRel;
        }
        newItems := newItems + [Item(r.doc.title, desc, r.doc.pathAbs, r.doc, r.score)];
      }
      assert newItems == TuiView.ItemsFor(results, cfg.rank);
      list := list.(items := newItems, cursor := env.kept(list.cursor, |newItems|));
      lastSelPath := "";
      assert State() == TuiView.Relisted(s0, results, env);
      UpdatePreview(env);
    }

    /** The vault after the current one in name order, round again. */
    method NextVault() returns (next: string)
      requires |cfg.vaults.m| > 0
      ensures next == TuiUpdate.VaultTarget(State())
    {
      var names := Names(cfg.vaults);
      HasIffListed(cfg.vaults, cfg.vaultName);
      var cur := 0;
      var i := 0;
      while i < |names|
        invariant 0 <= i <= |names|
        invariant forall j :: 0 <= j < i ==> names[j] != cfg.vaultName
        invariant cur == 0
      {
        if names[i] == cfg.vaultName {
          cur := i;
          break;
        }
        i := i + 1;
      }
      FirstPosition(names, cfg.vaultName, cur);
      next := names[(cur + 1) % |names|];
    }

    /** A vault switch that succeeded: the new vault and index, an empty cache, a new search. */
    method SwitchTo(next: string, p: string, index: Index, env: Env)
      modifies this
      ensures State() == TuiView.Refresh(old(State()).(cfg := old(cfg).(vaultName := next, vaultPath := p), idx := index,
                                                       cache := map[], lastSelPath := ""), env).(status := "vault: " + next)
    {
      Retarget(next, p, index);
      RefreshResults(env);
      SetStatus("vault: " + next);
    }

    /** The vault and index replaced, the rendered previews dropped. */
    method Retarget(next: string, p: string, index: Index)
      modifies this
      ensures State() == old(State()).(cfg := old(cfg).(vaultName := next, vaultPath := p), idx := index,
                                       cache := map[], lastSelPath := "")
    {
      cfg := cfg.(vaultName := next, vaultPath := p);
      idx := index;
      cache := map[];
      lastSelPath := "";
    }

    method SetStatus(msg: string)
      modifies this
      ensures State() == old(State()).(status := msg)
    {
      status := msg;
    }

    /** The `ctrl+v` branch of `Update`. */
    method CycleVault(env: Env)
      requires |cfg.vaults.m| > 0
      modifies this
      ensures State() == TuiUpdate.VaultCycle(old(State()), env)
    {
      var next := NextVault();
      var p := TuiUpdate.ExpandHomeLocal(Path(cfg.vaults, next).0, env.home);
      var built := Build(p, env.lookup(p));
      TuiUpdate.VaultCycleCases(State(), env, p, built);
      if built.Ok? {
        SwitchTo(next, p, built.value, env);
      } else {
        status := "vault switch failed: " + built.error;
      }
    }

    /** The text input takes the event; the search is re-run only when its text changed. */
    method TypeAndSearch(msg: Msg, env: Env)
      modifies this
      ensures State() == TuiUpdate.TypeAndSearch(old(State()), msg, env)
    {
      var typed := env.typed(input.value, msg);
      input := input.(value := typed);
      if typed != lastQuery {
        lastQuery := typed;
        RefreshResults(env);
      }
    }

    /** The preview follows the selection when it moved to another note. */
    method FollowSelection(env: Env)
      modifies this
      ensures State() == TuiUpdate.FollowSelection(old(State()), env)
    {
      if 0 <= list.cursor < |list.items| {
        var it := list.items[list.cursor];
        if it.path != lastSelPath {
          lastSelPath := it.path;
          UpdatePreview(env);
        }
      }
    }

    /** The part of `Update` every event reaches that no key binding consumed. */
    method PassOn(msg: Msg, env: Env)
      modifies this
      ensures State() == TuiUpdate.Fallthrough(old(State()), msg, env)
    {
      TypeAndSearch(msg, env);
      list := list.(cursor := env.listed(list.cursor, |list.items|, msg));
      FollowSelection(env);
      if focus == "preview" {
        vp := vp.(yOffset := env.viewport(vp.yOffset, msg));
      }
    }

    /** The resize branch of `Update`: a new layout, and the preview rendered afresh. */
    method Resize(w: int, h: int, env: Env)
      modifies this
      ensures State() == TuiUpdate.Step(old(State()), Msg.Resize(w, h), env).0
    {
      Relayout(w, h, env);
      UpdatePreview(env);
    }

    /** The new size laid out, with the rendered previews dropped. */
    method Relayout(w: int, h: int, env: Env)
      modifies this
      ensures State() == TuiView.Layout(old(State()).(width := w, height := h), env).(lastSelPath := "", cache := map[])
    {
      width, height := w, h;
      Layout(env);
      lastSelPath := "";
      cache := map[];
    }

    /** The key branch of `Update`: the bindings in the order they are tried. */
    method Press(k: string, env: Env) returns (effect: Effect)
      requires TuiUpdate.CanStep(State(), Key(k))
      modifies this
      ensures (State(), effect) == TuiUpdate.Step(old(State()), Key(k), env)
    {
      ghost var s0 := State();
      effect := NoEffect;
      if TuiUpdate.IsQuitKey(k) {
        return Quit;
      }
      if k == "ctrl+p" {
        if focus == "list" {
          focus := "preview";
          status := "focus: preview (j/k, \U{2191}/\U{2193}, PgUp/PgDn, g/G)";
        } else {
          focus := "list";
          status := "focus: list";
        }
        return;
      }
      if k == "enter" {
        if 0 <= list.cursor < |list.items| {
          var it := list.items[list.cursor];
          effect := OpenInEditor(cfg.editorCmd, it.path);
          status := "opened in " + cfg.editorCmd + ": " + Base(it.path);
        }
        return;
      }
      if k == "ctrl+o" {
        if 0 <= list.cursor < |list.items| {
          var it := list.items[list.cursor];
          effect := OpenInMacOS(it.path);
          status := "opened via macOS open";
        }
        return;
      }
      effect := Command(k, env);
    }

    /** The bindings of `Update` that search again or move the preview, then the keys no binding takes. */
    method Command(k: string, env: Env) returns (effect: Effect)
      requires TuiUpdate.CanStep(State(), Key(k))
      requires !TuiUpdate.IsQuitKey(k) && k !in {"ctrl+p", "enter", "ctrl+o"}
      modifies this
      ensures (State(), effect) == TuiUpdate.Step(old(State()), Key(k), env)
    {
      ghost var s0 := State();
      effect := NoEffect;
      if k == "ctrl+r" {
        cfg := cfg.(rank := !cfg.rank);
        RefreshResults(env);
        TuiUpdate.StepRank(s0, env);
        return;
      }
      if k == "tab" {
        cfg := cfg.(mode := TuiUpdate.NextMode(cfg.mode));
        RefreshResults(env);
        TuiUpdate.StepTab(s0, env);
        return;
      }
      if k == "ctrl+v" {
        CycleVault(env);
        TuiUpdate.StepVault(s0, env);
        return;
      }
      if focus == "preview" {
        var op := TuiUpdate.NavOp(k, vp.height);
        if op.Some? {
          vp := vp.(yOffset := env.scrolled(vp.yOffset, op.value));
          return;
        }
      }
      PassOn(Key(k), env);
    }

    /** `Update`: reacts to one event and returns the effect it asks for. */
    method Update(msg: Msg, env: Env) returns (effect: Effect)
      requires TuiUpdate.CanStep(State(), msg)
      modifies this
      ensures (State(), effect) == TuiUpdate.Step(old(State()), msg, env)
    {
      match msg {
        case Resize(w, h) =>
          Resize(w, h, env);
          effect := NoEffect;
        case Key(k) =>
          effect := Press(k, env);
        case Other(_) =>
          PassOn(msg, env);
          effect := NoEffect;
      }
    }
  }
}
