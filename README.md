# lumen, modelled in Dafny

lumen is a terminal search tool for Obsidian-style markdown vaults. This
project models its core and proves properties of it:

- **Markdown metadata extraction** (`internal/index/parse.go`). The three
  regular expressions become hand-written line scanners:
  - the title: the first level-1 heading that differs from the file name;
  - the trimmed headings, in document order;
  - the de-duplicated tag list, built from the YAML frontmatter's block
    list, its `tags: [...]` lists and the inline `#tag` markers.
- **The index builder** (`internal/index/index.go`). It walks an abstract
  file tree in which each file carries its read and stat outcome. The walk:
  - prunes the tool directories;
  - keeps the `.md` files;
  - stops at the first error;
  - sorts the documents by relative path.
- **The query engine** (`internal/search`):
  - query parsing;
  - AND matching of the tokens in each search mode;
  - the fixed score weights;
  - the three-key result order.
- **The vault registry** (`internal/vault/vault.go`) and the command-line
  resolution helpers (`cmd/root.go`). Flags, the `EDITOR` variable and the
  home directory are parameters.
- **The terminal interface** (`internal/tui`). Its state is the class
  `TuiModel.Model`, with the fields of the Go `Model`, and its methods
  update those fields in place. Each method is proved equal to a function
  on `TuiState.Session` values from `TuiView` and `TuiUpdate`, and the
  properties of the interface are lemmas about those functions.
  - The widgets, the renderer, the file read and the index rebuild are the
    oracles of `TuiState.Env`: the text input, the list, the viewport,
    the markdown renderer, `os.ReadFile`, `os.Stat` and the walk.

Most Go loops over mutable state are methods with loop invariants. Each
is proved to return what a recursive specification function computes:
- `ParseMarkdown` and the two YAML collectors;
- `Build`'s walk;
- `matchDoc` and `Search`;
- `Names`.

The properties are lemmas about those specification functions. Sorting
(`sort.Slice`, `sort.SliceStable`, `sort.Strings`) is a stable insertion
sort on values. It is proved sorted and a permutation, and it is the only
sorted permutation when the keys are distinct.

## Model

| member | source | states |
|---|---|---|
| MarkdownParse.HashRun | internal/index/parse.go:9 | the run of leading `#` characters: all of them, and no more |
| MarkdownParse.MatchHeading | internal/index/parse.go:9 | a heading line starts with 1 to 6 `#` characters followed by whitespace |
| MarkdownParse.TagRunEnd | internal/index/parse.go:10 | the end of the longest run of `[A-Za-z0-9_-]` characters from a position |
| MarkdownParse.InlineTagsFrom | internal/index/parse.go:10 | every inline match is `#` followed by one or more tag characters |
| MarkdownParse.FirstTagsKey | internal/index/parse.go:72-76 | the block list starts at a line whose trimmed, lower-cased text starts with `tags:` |
| MarkdownParse.FirstClose | internal/index/parse.go:56-61 | the closing delimiter is the first later line that trims to `---`; when there is none, no line does |
| MarkdownParse.ExtractFrontmatter | internal/index/parse.go:48-62 | the early-return scan returns exactly the frontmatter specification |
| MarkdownParse.FrontmatterLines | internal/index/parse.go:48-62 | non-empty frontmatter means: the text starts with `---`, its first line trims to `---`, and the result is the lines strictly between it and the first later `---` line |
| MarkdownParse.UnclosedFrontmatter | internal/index/parse.go:56-61 | without a later line that trims to `---`, the frontmatter is empty |
| MarkdownParse.AddNewShape | internal/index/parse.go:86-89 | adding unseen candidates extends the list, keeps what was there, adds exactly the candidates, and keeps it free of duplicates |
| MarkdownParse.AddNewAppend | internal/index/parse.go:30-43 | collecting two batches one after the other is the same as collecting their concatenation, since the seen set is shared |
| MarkdownParse.Remember | internal/index/parse.go:86-89 | a tag is appended exactly when it was not seen, and the seen set keeps matching the output |
| MarkdownParse.CollectYAMLBlockTags | internal/index/parse.go:64-97 | appends the unseen tags of the block list to the output, with the seen set kept in step |
| MarkdownParse.CollectBlockLines | internal/index/parse.go:68-96 | the `inTags` loop adds exactly the block-list tags to the output |
| MarkdownParse.ItemLine | internal/index/parse.go:79-90 | a `- ` item adds `#` and its trimmed, unquoted value unless the value is empty |
| MarkdownParse.ScanBlockMeaning | internal/index/parse.go:68-96 | after each line, the `inTags` flag and the tags found so far are what the block-list rule says about that prefix |
| MarkdownParse.ScanBlockIsBlockTags | internal/index/parse.go:64-97 | scanning all the lines yields exactly the block-list tags: items after the first `tags:` line, blank lines skipped, stopping at the first other line |
| MarkdownParse.StoppedStays | internal/index/parse.go:93-95 | once a non-blank, non-item line stops the block list, no later line adds a tag |
| MarkdownParse.OtherStep | internal/index/parse.go:93-95 | a blank line inside the block list is skipped; any other non-item line ends it |
| MarkdownParse.CollectYAMLInlineTags | internal/index/parse.go:99-117 | appends the unseen tags of every `tags: [...]` line, in order |
| MarkdownParse.CollectBracketLists | internal/index/parse.go:101-116 | the outer loop over bracket lists adds each list's tags in turn |
| MarkdownParse.CollectParts | internal/index/parse.go:103-115 | each comma-separated part, trimmed and unquoted, adds `#`+value unless empty |
| MarkdownParse.ScanHeadings | internal/index/parse.go:17-28 | the heading loop produces the trimmed non-blank headings and the title rule's title |
| MarkdownParse.RememberAll | internal/index/parse.go:38-43 | the inline loop appends each unseen inline tag in order |
| MarkdownParse.ParseMarkdown | internal/index/parse.go:14-46 | the title, headings and tags are those of the specification functions `Title`, `Headings` and `Tags` |
| MarkdownParse.FirstTitleIsFirstCandidate | internal/index/parse.go:15-27 | the title is the file name exactly when no level-1 heading differs from it; otherwise it is the first level-1 heading that does |
| MarkdownParse.HeadingsTrimmed | internal/index/parse.go:17-24 | every heading is non-empty and equal to its own trim; there are at most as many headings as lines |
| MarkdownParse.HeadingTextsTrimmed | internal/index/parse.go:20-24 | headings blank after trimming are dropped; each kept heading is trimmed |
| MarkdownParse.HeadingMatchesAtMostOnePerLine | internal/index/parse.go:17 | the heading scanner finds at most one heading per line |
| MarkdownParse.TagsAreHashTags | internal/index/parse.go:30-43 | every tag starts with `#` and has text after it |
| MarkdownParse.BracketTagsAreHashTags | internal/index/parse.go:104-114 | every bracket-list tag is `#` and a non-empty value |
| MarkdownParse.ItemRunAreHashTags | internal/index/parse.go:79-89 | every block-list tag is `#` and a non-empty value |
| MarkdownParse.TagsAreDistinctMentions | internal/index/parse.go:30-43 | the tag list has no duplicates, and a tag is in it exactly when the frontmatter or the inline text mentions it |
| MarkdownParse.FrontmatterTagsFirst | internal/index/parse.go:32-43 | the frontmatter tags come first, de-duplicated, before any inline tag |
| MarkdownParse.NoFrontmatterOnlyInline | internal/index/parse.go:32-43 | without frontmatter (unclosed included), the tags are the de-duplicated inline tags of the whole text |
| DocIndex.ValidateRoot | internal/index/index.go:60-69 | the root is accepted exactly when it is a directory; a stat error is passed on; a file gives `vault path is not a directory: <root>` |
| DocIndex.BuildDocDecides | internal/index/index.go:71-101 | the callback fails exactly on a walk error or an unreadable markdown file, prunes exactly the tool directories, and makes a document exactly from a readable `.md` file |
| DocIndex.Walk | internal/index/index.go:35-48 | the walk appends the tree's documents in walk order, or returns the first error |
| DocIndex.Build | internal/index/index.go:29-58 | the build result equals the specification `BuildSpec` |
| DocIndex.BuildRejectsBadRoot | internal/index/index.go:29-32 | a missing root or a root that is not a directory gives an error and no index |
| DocIndex.BuildOutcome | internal/index/index.go:29-58 | the build fails exactly when some visited node fails, with the first failure's error; otherwise it holds the root and the readable markdown documents, sorted by relative path |
| DocIndex.OutcomeFailsFirst | internal/index/index.go:35-51 | the walk fails exactly when some node fails, and then with the first failing node's error |
| DocIndex.OutcomeIsFailFast | internal/index/index.go:35-51 | the walk outcome is the fail-fast fold over the visited nodes |
| DocIndex.FailFastAppend | internal/index/index.go:35-51 | a fail-fast walk over two parts stops in the first part or continues with the second |
| DocIndex.WalkIsOutcome | internal/index/index.go:35-48 | the recursive walk visits the nodes that are not pruned, in order, and stops at the first failure |
| DocIndex.NothingPrunedIsShown | internal/index/index.go:75-76 | no node the walk visits is a directory named `.obsidian`, `.trash`, `node_modules` or `.git` |
| DocIndex.ChildRelOf | internal/index/index.go:75-76 | a child's relative path is its parent's with one more `/`-separated segment, the child's name |
| DocIndex.PrunedSubtreesHidden | internal/index/index.go:40-41 | when every entry has a name a listing can return, no node the walk visits has a pruned directory on its relative path, and none is one itself |
| DocIndex.PrunedSubtreesHiddenFrom | internal/index/index.go:40-41 | the same for the nodes visited among a directory's children from a given position on |
| DocIndex.NoDocUnderPrunedDir | internal/index/index.go:40-41 | no document of a built index has `.obsidian`, `.trash`, `node_modules` or `.git` among the directories of its relative path |
| DocIndex.DocsOfFiles | internal/index/index.go:78-100 | a document comes from exactly one visited readable markdown file |
| DocIndex.DocsAreMarkdown | internal/index/index.go:87-99 | each document's file name ends in `.md` (any case); its paths are the file's; its title, headings, tags and lower-cased content come from parsing its text |
| SearchQuery.ModeOrdinal | internal/search/query.go:5-12 | the mode number is below 4 |
| SearchQuery.ModeOf | internal/search/query.go:5-12 | exactly the numbers 0 to 3 name a mode |
| SearchQuery.ModeNumbering | internal/search/query.go:5-12 | All, Tags, Headings and Content are numbered 0 to 3, one to one |
| SearchQuery.ParseTokens | internal/search/query.go:19-26 | the raw text is the trimmed input; it is empty exactly when there are no tokens, and exactly when the input is all whitespace; every token is a non-empty word without whitespace; together the tokens are the input's non-space characters in order |
| SearchQuery.ParseIdempotent | internal/search/query.go:19-26 | parsing the raw text of a parsed query gives the same query |
| SearchQuery.NonSpacesTrimSpace | internal/search/query.go:20-24 | trimming removes only whitespace |
| SearchRank.NormalizeTagQuery | internal/search/rank.go:116-121 | the result starts with `#`; a token that has one is kept, and any other token gains one |
| SearchRank.NormalizeTagQueryIdempotent | internal/search/rank.go:116-121 | normalising twice is normalising once |
| SearchRank.TokenWeight | internal/search/rank.go:57-103 | the mode switch finds the token exactly when the specification's hit exists, with that hit's weight |
| SearchRank.MatchDoc | internal/search/rank.go:45-114 | a document matches exactly when every token is found; the score is then the specification's (0 when unranked), and 0 on a miss |
| SearchRank.MatchMisses | internal/search/rank.go:105-107 | a single missing token rejects the document |
| SearchRank.AllFoundSnoc | internal/search/rank.go:53-108 | the tokens match when each one does: the AND across tokens |
| SearchRank.Search | internal/search/rank.go:14-43 | the keep-then-sort loop returns exactly the specification's results |
| SearchRank.SearchBlank | internal/search/rank.go:15-21 | a blank query returns every document in index order with score 0 |
| SearchRank.KeptIsMatching | internal/search/rank.go:23-29 | the kept documents are exactly the matching ones in index order, each with its match score, and no more than the index holds |
| SearchRank.MatchingMembers | internal/search/rank.go:23-29 | a document is kept exactly when it is in the index and every token is found |
| SearchRank.SearchKeepsMatching | internal/search/rank.go:23-41 | the results are a permutation of the matching documents, each with its match score, and at most as many as the index holds |
| SearchRank.RankOffScoresZero | internal/search/rank.go:110-112 | without ranking every score is 0 |
| SearchRank.RankKeepsSameDocs | internal/search/rank.go:61-112 | ranking changes scores and order but not which documents are returned |
| SearchRank.ScoreWeights | internal/search/rank.go:57-103 | a matched document scores 200 per token in Tags mode, 100 per token in Content mode, at least 250 per token in Headings mode, and between 100 and 300 per token overall |
| SearchRank.AllModePriority | internal/search/rank.go:81-102 | in All mode the first space that holds the token decides its weight: title/path/file name 300, else headings 250, else tags 200, else content 100; so All is the first hit of Headings, Tags and Content, in that order, and hits exactly when one of them does |
| SearchRank.MatchIgnoresTokenCase | internal/search/rank.go:53-54 | tokens that differ only in case match the same documents with the same scores |
| SearchRank.ScoreIgnoresTokenCase | internal/search/rank.go:53-54 | tokens that differ only in case give the same score |
| SearchRank.MatchIgnoresTitleCase | internal/search/rank.go:48 | a title that differs only in case matches and scores the same |
| SearchRank.TokenHitSameSpaces | internal/search/rank.go:48-51 | matching depends only on the lower-cased title, heading, tag and content spaces |
| SearchRank.SearchOrdered | internal/search/rank.go:31-41 | results are ordered by score descending, then lower-cased title ascending, then relative path ascending |
| SearchRank.ResultOrderTotal | internal/search/rank.go:31-41 | any two result keys are equal or ordered one way |
| Sorting.SortBySortsAndPermutes | internal/search/rank.go:31-41 | the library sort returns a sorted permutation of its input |
| Sorting.SortedUnique | internal/index/index.go:53-55 | with distinct keys there is only one sorted permutation, so an unstable sort by relative path has one outcome |
| Sorting.KeyLessTransitive | internal/search/rank.go:31-41 | the three-key comparison is transitive |
| Sorting.KeyLessTotal | internal/search/rank.go:31-41 | the three-key comparison orders any two distinct keys |
| Vault.New | internal/vault/vault.go:5-7 | a registry over a map has exactly the map's keys |
| Vault.Path | internal/vault/vault.go:22-25 | a known name gives its mapped path and `true`; an unknown name gives `""` and `false` |
| Vault.Names | internal/vault/vault.go:27-34 | the collect-then-sort loop returns the specification's sorted key list |
| Vault.SortedKeysShape | internal/vault/vault.go:27-34 | the names are strictly ascending and are the keys, each once |
| Vault.SortedKeysUnique | internal/vault/vault.go:32 | only one strictly ascending list holds exactly the keys |
| Vault.HasIffListed | internal/vault/vault.go:17-34 | a name is known exactly when it is listed; the list has one entry per key |
| Vault.NoVaultsNoNames | internal/vault/vault.go:27-34 | an empty registry lists no names |
| Vault.DefaultNames | internal/vault/vault.go:9-15 | the default registry lists `develop`, `private`, `work` |
| Cli.ResolveVaultNameShape | cmd/root.go:57-67 | a non-blank trimmed flag wins, with the arguments unchanged; otherwise a known first argument is taken off; otherwise the vault is `develop` and the arguments are unchanged |
| Cli.LeadingVaultConsumed | cmd/root.go:62-64 | a known first argument with no flag names the vault and is taken off |
| Cli.ResolveVaultPathCases | cmd/root.go:69-75 | the path resolves exactly for known names, to the home-expanded mapped path; an unknown name gives an error that starts with `unknown vault: <name>` |
| Cli.DefaultVaultPathsNonEmpty | cmd/root.go:69-75 | each default vault resolves to a non-empty path |
| Cli.SearchModePriority | cmd/root.go:77-88 | the tags flag beats headings, headings beats content, and with none the mode is All |
| Cli.EditorChoice | cmd/root.go:90-98 | the editor is the flag if non-empty, else `$EDITOR` if non-empty, else `nvim`; it is never empty |
| Cli.ExpandHomeCases | cmd/root.go:122-137 | a failed home lookup returns the input; `~` becomes the home; `~/rest` joins the home and `rest`; a path not starting with `~` is unchanged |
| Cli.ExpandHomeIdempotent | cmd/root.go:122-137 | expanding an expanded path changes nothing when the home is non-empty and does not start with `~` |
| TuiState.FilterValue | internal/tui/model.go:37 | the filter text is the title, one space, then the description |
| TuiState.Selected | internal/tui/view.go:74 | an item is selected exactly when the cursor is inside the list, and it is one of the list's items |
| TuiView.BodyH | internal/tui/view.go:16-17 | the body height is the larger of 1 and the height less 3 |
| TuiView.Max | internal/tui/view.go:151-156 | the maximum is one of its arguments and no smaller than either |
| TuiView.Layout | internal/tui/view.go:15-26 | the list and the preview get the body height; the list is at least 30 wide and the preview at least 20; the input is the width less 2; nothing else changes |
| TuiView.WrapFor | internal/tui/view.go:56-59 | the wrap width is the preview width, but at least 20 |
| TuiView.MapModeInjective | internal/tui/view.go:138-149 | the mode labels are `tags`, `title`, `content` and `all`, one per mode |
| TuiView.EnsureRendererSpec | internal/tui/view.go:55-71 | afterwards a renderer exists for the current wrap; it is rebuilt exactly when it was absent or built for another wrap, and nothing else changes |
| TuiView.SetContent | internal/tui/view.go:76 | the preview shows the given text |
| TuiView.UpdatePreviewFrame | internal/tui/view.go:73-106 | a preview changes only the preview content, the renderer and the cache, and the cache only by the selected note's entry |
| TuiView.PreviewWithoutSelection | internal/tui/view.go:74-78 | with nothing selected the preview is cleared and nothing else changes |
| TuiView.PreviewCacheHit | internal/tui/view.go:82-86 | on a hit for (path, wrap) the cached text is shown, the cache is unchanged, and no file is read |
| TuiView.PreviewCacheMiss | internal/tui/view.go:88-105 | on a miss a read error is shown, a render failure shows the raw header and note, and neither touches the cache; a rendering is shown and cached under (path, wrap) |
| TuiView.ItemsFor | internal/tui/view.go:32-46 | one list item per result |
| TuiView.Relisted | internal/tui/view.go:47 | the list receives one item per result |
| TuiView.RefreshListsResults | internal/tui/view.go:28-53 | the list holds one item per search result, in order, with its note, score, title, path and a description that is the relative path, behind `[score] ` only when ranking; `lastSelPath` is empty; only the list, preview and cache change |
| TuiView.NewSessionSpec | internal/tui/model.go:67-97 | a new session focuses the list, has input and `lastQuery` equal to the initial query, lists exactly the items built from the ranked results for it, has no last previewed path, and builds a renderer only when a note is selected |
| TuiUpdate.NextModeCycle | internal/tui/update.go:71-82 | `tab` cycles All, Tags, Headings, Content: four presses restore the mode, and fewer do not |
| TuiUpdate.PositionOrZero | internal/tui/update.go:89-95 | the search loop finds the first position of the current vault, or 0 when it is absent |
| TuiUpdate.MovedTo | internal/tui/update.go:153 | the list cursor moves to the given position |
| TuiUpdate.Scrolled | internal/tui/update.go:116-137 | the preview scrolls to the given offset |
| TuiUpdate.QuitKeysQuit | internal/tui/update.go:32-34 | `esc`, `ctrl+c` and `q` quit in any focus and change nothing |
| TuiUpdate.FocusToggle | internal/tui/update.go:37-46 | `ctrl+p` moves the focus from the list to the preview and from anything else to the list, sets the status, and changes nothing else; a second press restores the focus |
| TuiUpdate.StepTab | internal/tui/update.go:71-84 | `tab` moves to the next mode and searches again |
| TuiUpdate.StepRank | internal/tui/update.go:66-69 | `ctrl+r` flips ranking and searches again |
| TuiUpdate.StepVault | internal/tui/update.go:86-112 | `ctrl+v` cycles the vault |
| TuiUpdate.TabCyclesModes | internal/tui/update.go:71-84 | four presses of `tab` give back the mode |
| TuiUpdate.RankToggleTwice | internal/tui/update.go:66-69 | two presses of `ctrl+r` give back the rank setting |
| TuiUpdate.VaultTargetAfter | internal/tui/update.go:88-96 | the target is the name after the current one in the sorted list, wrapping round |
| TuiUpdate.VaultTargetSpec | internal/tui/update.go:88-96 | the target is `names[(cur+1) mod len(names)]`, with `cur` the current vault's position or 0 when it is not listed |
| TuiUpdate.SortedDistinct | internal/vault/vault.go:27-34 | a strictly ascending name list has no repeats, so the current vault has one position |
| TuiUpdate.VaultCycleCases | internal/tui/update.go:97-111 | a failed rebuild only sets the failure status; a success replaces vault, path and index, clears the cache, searches again and reports the vault |
| TuiUpdate.VaultSwitchFailure | internal/tui/update.go:109-111 | a failed rebuild leaves vault, path, index and cache unchanged and only sets the status |
| TuiUpdate.VaultSwitchSuccess | internal/tui/update.go:101-108 | a successful rebuild switches vault, path and index, lists the search over the new index, clears `lastSelPath`, reports the new vault, and leaves at most the new preview in the cache |
| TuiUpdate.RefreshClearsSelPath | internal/tui/view.go:51 | a refresh clears `lastSelPath` |
| TuiUpdate.RefreshKeeps | internal/tui/view.go:28-53 | a refresh keeps the configuration, index, query, focus and status |
| TuiUpdate.RefreshItems | internal/tui/view.go:32-47 | a refresh lists the session's own search results |
| TuiUpdate.CacheAfterRefresh | internal/tui/view.go:52 | a refresh adds at most one cache entry |
| TuiUpdate.PreviewNavigationOnlyScrolls | internal/tui/update.go:116-137 | with the preview focused a navigation key only scrolls: query, list, index and cache are untouched |
| TuiUpdate.ListFocusNavigationTypes | internal/tui/update.go:116-142 | with the list focused the same keys go to the query input |
| TuiUpdate.ResearchOnlyOnChange | internal/tui/update.go:140-149 | a search runs exactly when the input text differs from `lastQuery`, which then takes the new text |
| TuiUpdate.ResizeClearsCache | internal/tui/update.go:19-26 | a resize records the size, lays out again, clears the cache and `lastSelPath`, then previews |
| TuiUpdate.OpenKeys | internal/tui/update.go:49-64 | `enter` and `ctrl+o` open the selected note and report it; with no selection they do nothing |
| TuiUpdate.FocusStaysValid | internal/tui/update.go:16-171 | the focus is always `list` or `preview` |
| TuiUpdate.FallthroughKeepsFocus | internal/tui/update.go:140-170 | events that reach the widgets never change the focus |
| TuiUpdate.ExpandHomeLocalAgrees | internal/tui/update.go:173-179 | the interface's `expandHome` agrees with the command line's when the home is known, except that it leaves a bare `~` alone; an unknown home turns `~/rest` into `rest` |
| TuiModel.FirstPosition | internal/tui/update.go:89-95 | the loop's break at the first equal name computes the first position, or 0 |
| TuiModel.Model.constructor | internal/tui/model.go:67-97 | the new model's fields are those of the new session |
| TuiModel.Model.Layout | internal/tui/view.go:15-26 | the fields become the laid-out session |
| TuiModel.Model.EnsureRenderer | internal/tui/view.go:55-71 | the renderer fields become those of the memoised renderer |
| TuiModel.Model.UpdatePreview | internal/tui/view.go:73-106 | the preview, renderer and cache fields become those of the preview specification |
| TuiModel.Model.RefreshResults | internal/tui/view.go:28-53 | the fields become those of the refreshed session |
| TuiModel.Model.NextVault | internal/tui/update.go:88-96 | the search loop returns the vault target |
| TuiModel.Model.Retarget | internal/tui/update.go:102-106 | the vault name, path and index are replaced and the cache and `lastSelPath` cleared; nothing else changes |
| TuiModel.Model.SetStatus | internal/tui/update.go:108 | only the status changes |
| TuiModel.Model.SwitchTo | internal/tui/update.go:101-108 | the switched session is searched again and reports the new vault |
| TuiModel.Model.CycleVault | internal/tui/update.go:86-112 | the fields become those of the vault cycle, with rollback on failure |
| TuiModel.Model.TypeAndSearch | internal/tui/update.go:140-149 | the input takes the event and the search reruns only on a changed query |
| TuiModel.Model.FollowSelection | internal/tui/update.go:155-162 | the preview follows the selection only when it moved to another note |
| TuiModel.Model.PassOn | internal/tui/update.go:140-170 | an unconsumed event goes through the input, the list and the preview |
| TuiModel.Model.Relayout | internal/tui/update.go:20-24 | the size is recorded, the layout redone, and the cache and `lastSelPath` cleared |
| TuiModel.Model.Resize | internal/tui/update.go:19-26 | the resize branch of the transition |
| TuiModel.Model.Press | internal/tui/update.go:28-137 | a key press changes the fields and asks for the effect the transition function gives |
| TuiModel.Model.Command | internal/tui/update.go:66-137 | the ranking, mode, vault, scrolling and fallthrough keys follow the transition function |
| TuiModel.Model.Update | internal/tui/update.go:16-171 | any event changes the fields and asks for the effect the transition function gives |

## Left out

- Regular expressions are modelled line by line. In Go, `\s` in the heading and `tags: [...]` patterns can span a newline (`"#\nfoo"` is a heading there). The scanners here never cross a line.
- Case folding and whitespace are ASCII only. `strings.ToLower`, `TrimSpace` and `Fields` handle Unicode in Go.
- `filepath.Join` is modelled as joining with `/`, without `filepath.Clean`. Only the Unix path separator is modelled.
- The file system is a fixed tree of directory and file entries. Each file carries its read and stat outcome. Symlinks, concurrent changes and the walk's own directory-read errors other than those outcomes are not modelled.
- `readDocFields`' `filepath.Rel` error is not modelled. The relative path is built from the walk, so it cannot fail.
- `ModTime` is an opaque integer.
- DocIndex.Build: `sort.Slice` is not stable. It is modelled as a stable sort. This gives the same order only when the relative paths are distinct. That holds on a real file system, where no two entries of one directory share a name, but the model assumes it rather than proving it for BuildSpec. Sorting.SortedUnique shows that a sorted order with distinct keys is unique.
- TuiState.Selected: reads `items[cursor]` from the unfiltered items. The list widget's own `/` filter is not modelled, and with a filter active the widget selects from the filtered view.
- TuiView.SetContent: changes only the content. The viewport widget also moves its offset to the bottom when the old offset lies past the new content. That is not modelled.
- SearchRank.ScoreWeights: scores are unbounded integers. Go's `int` overflow is not modelled.
- SearchQuery.ModeOf: Go's `Mode` is an `int`, so values outside 0 to 3 can exist. The model has only the four named modes. `mapMode`'s `default` branch therefore covers only All.
- `os.UserHomeDir`, `os.Getenv` and the cobra flags are parameters. The `run` function, `Execute`, `init` and the flag registration are I/O plumbing and are left out.
- Opening a note is an `Effect` value together with the status text. `internal/open` only spawns processes and is not part of this model.
- Bubble Tea, bubbles, glamour and lipgloss are left out as foreign code. They are the oracle functions of `TuiState.Env`:
  - text-input editing and `SetValue` (taken to store the text as given);
  - `list.Update` and the selection after `SetItems`;
  - viewport scrolling;
  - markdown rendering.
- The styled `View()` string is left out. `mapMode` and `max` are modelled.
- TuiView.Layout: the floating-point split `int(float64(width)*0.45)` is an oracle. Only the integer body height and the `max` clamps are stated.
- TuiView.EnsureRenderer: creating a glamour renderer is taken to succeed. In Go an error leaves it nil.
- TuiUpdate.ExpandHomeLocal: a failed home-directory lookup is modelled as an empty home. Go ignores that error in the same way.
- TuiUpdate.CanStep: `ctrl+v` with no vaults divides by zero and panics in Go. The model requires at least one vault for that key.
- `tea.Cmd` return values, `Init` and the unused debounce fields are left out.
- `indexBuild` is the index builder's specification applied to the oracle tree at the vault path.
