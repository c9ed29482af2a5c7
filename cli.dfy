/**
 * The command line: which vault to open, where it lives, which search mode
 * and editor to use. The command-line flags, `$EDITOR` and the home
 * directory lookup are parameters.
 */
module Cli {
  import opened Wrappers
  import opened Text
  import opened SearchQuery
  import opened Vault

  /**
   * `resolveVaultName`: a non-blank `--vault` flag wins; otherwise a first
   * argument naming a known vault is taken; otherwise `develop`. Returns the
   * vault name and the arguments left for the query.
   */
  function ResolveVaultName(vaults: Vaults, flagVault: string, args: seq<string>): (string, seq<string>)
  {
    var vname := TrimSpace(flagVault);
    if vname != "" then (vname, args)
    else if |args| > 0 && Has(vaults, args[0]) then (args[0], args[1..])
    else ("develop", args)
  }

  /** The error for a vault name that is not configured. */
  function UnknownVault(vname: string, names: seq<string>): string
  {
    "unknown vault: " + vname + " (known: " + Join(names, ", ") + ")"
  }

  /** `resolveVaultPath`: the home-expanded directory of a known vault, an error otherwise. */
  function ResolveVaultPath(vaults: Vaults, vname: string, home: Result<string, string>): Result<string, string>
  {
    var (p, ok) := Path(vaults, vname);
    if !ok then Err(UnknownVault(vname, NamesSpec(vaults)))
    else Ok(ExpandHome(p, home))
  }

  /** `getSearchMode`: the first of the tags, headings and content flags that is set. */
  function GetSearchMode(flagTags: bool, flagHeads: bool, flagContent: bool): Mode
  {
    if flagTags then Tags
    else if flagHeads then Headings
    else if flagContent then Content
    else All
  }

  /** `getEditor`: the `--editor` flag, else `$EDITOR`, else `nvim`. */
  function GetEditor(flagEditor: string, envEditor: string): string
  {
    if flagEditor != "" then flagEditor
    else if envEditor != "" then envEditor
    else "nvim"
  }

  /**
   * `expandHome`: `~` and a leading `~/` stand for the home directory; when
   * the home directory cannot be found (`home` is an error) the path is kept.
   */
  function ExpandHome(p: string, home: Result<string, string>): string
  {
    if p == "" then p
    else if HasPrefix(p, "~/") || p == "~" then
      if home.Err? then p
      else if p == "~" then home.value
      else JoinPath(home.value, p[2..])
    else p
  }

  // ------------------------------------------------------------ properties

  /**
   * The remaining arguments are the arguments, or all but the first when
   * the first one named the vault; a consumed argument always names a known
   * vault, and the flag, when set, is taken even if no vault has that name.
   */
  lemma ResolveVaultNameShape(vaults: Vaults, flagVault: string, args: seq<string>)
    ensures var (vname, rest) := ResolveVaultName(vaults, flagVault, args);
      && (TrimSpace(flagVault) != "" ==> vname == TrimSpace(flagVault) && rest == args)
      && (rest == args || (|args| > 0 && rest == args[1..] && vname == args[0] && Has(vaults, vname)))
      && (TrimSpace(flagVault) == "" && !(|args| > 0 && Has(vaults, args[0])) ==> vname == "develop" && rest == args)
  {
  }

  /** Without a flag, a leading known vault is always taken off the arguments. */
  lemma LeadingVaultConsumed(vaults: Vaults, args: seq<string>)
    requires |args| > 0 && Has(vaults, args[0])
    ensures ResolveVaultName(vaults, "", args) == (args[0], args[1..])
  {
    assert TrimSpace("") == "";
  }

  /**
   * A known vault resolves to its expanded directory, an unknown one to an
   * error that starts with `unknown vault: ` and the name.
   */
  lemma ResolveVaultPathCases(vaults: Vaults, vname: string, home: Result<string, string>)
    ensures ResolveVaultPath(vaults, vname, home).Ok? <==> Has(vaults, vname)
    ensures Has(vaults, vname) ==> ResolveVaultPath(vaults, vname, home).value == ExpandHome(vaults.m[vname], home)
    ensures !Has(vaults, vname) ==>
      HasPrefix(ResolveVaultPath(vaults, vname, home).error, "unknown vault: " + vname)
  {
    if !Has(vaults, vname) {
      var e := UnknownVault(vname, NamesSpec(vaults));
      assert e == ("unknown vault: " + vname) + (" (known: " + Join(NamesSpec(vaults), ", ") + ")");
    }
  }

  /** The default vaults resolve to non-empty directories. */
  lemma DefaultVaultPathsNonEmpty(vname: string, home: Result<string, string>)
    requires vname in {"develop", "work", "private"}
    ensures ResolveVaultPath(DefaultVaults(), vname, home).Ok?
    ensures ResolveVaultPath(DefaultVaults(), vname, home).value != ""
  {
  }

  /** The tags flag beats the headings flag, which beats the content flag. */
  lemma SearchModePriority(flagHeads: bool, flagContent: bool)
    ensures GetSearchMode(true, flagHeads, flagContent) == Tags
    ensures GetSearchMode(false, true, flagContent) == Headings
    ensures GetSearchMode(false, false, true) == Content
    ensures GetSearchMode(false, false, false) == All
  {
  }

  /** There is always an editor, and a non-empty flag always picks it. */
  lemma EditorChoice(flagEditor: string, envEditor: string)
    ensures GetEditor(flagEditor, envEditor) != ""
    ensures GetEditor(flagEditor, envEditor) in {flagEditor, envEditor, "nvim"}
    ensures flagEditor != "" ==> GetEditor(flagEditor, envEditor) == flagEditor
    ensures flagEditor == "" && envEditor != "" ==> GetEditor(flagEditor, envEditor) == envEditor
    ensures flagEditor == "" && envEditor == "" ==> GetEditor(flagEditor, envEditor) == "nvim"
  {
  }

  /**
   * Only `~` and a leading `~/` are expanded; any other path, including one
   * with `~` further in, is kept, and so is every path when there is no home.
   */
  lemma ExpandHomeCases(p: string, home: Result<string, string>)
    ensures home.Err? ==> ExpandHome(p, home) == p
    ensures home.Ok? && p == "~" ==> ExpandHome(p, home) == home.value
    ensures home.Ok? && |p| >= 2 && p[..2] == "~/" ==> ExpandHome(p, home) == JoinPath(home.value, p[2..])
    ensures (p == [] || p[0] != '~') ==> ExpandHome(p, home) == p
  {
  }

  /** Expanding a path twice is expanding it once, when the home directory does not start with `~`. */
  lemma ExpandHomeIdempotent(p: string, h: string)
    requires h != "" && h[0] != '~'
    ensures ExpandHome(ExpandHome(p, Ok(h)), Ok(h)) == ExpandHome(p, Ok(h))
  {
    var q := ExpandHome(p, Ok(h));
    if HasPrefix(p, "~/") && p != "~" {
      assert q[0] == h[0];
    }
  }
}
