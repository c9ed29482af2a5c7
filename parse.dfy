/**
 * The metadata extractor of internal/index/parse.go: a title, the headings in
 * document order and the de-duplicated tags of one markdown text.
 *
 * The three regular expressions of the source are hand-written scanners over
 * the lines of the text (pieces between `\n`). The scanners are the regexp
 * engine; the loops of `ParseMarkdown` and of the two YAML collectors are
 * methods proved equal to the specification functions `Title`, `Headings` and
 * `Tags`.
 */
module MarkdownParse {
  import opened Wrappers
  import opened Text

  // ------------------------------------------------------------ heading regex

  /** One match of `(?m)^(#{1,6})\s+(.+?)\s*$`: the number of `#` and the captured text. */
  datatype HeadingMatch = HeadingMatch(level: nat, text: string)

  /** The number of `#` characters that start `line`. */
  function HashRun(line: string): (k: nat)
    ensures k <= |line|
    ensures forall i :: 0 <= i < k ==> line[i] == '#'
    ensures k == |line| || line[k] != '#'
  {
    if line != [] && line[0] == '#' then 1 + HashRun(line[1..]) else 0
  }

  /**
   * The heading regex on one line: one to six `#`, at least one `\s`, then the
   * rest of the line without its surrounding `\s` characters.
   */
  function MatchHeading(line: string): (r: Option<HeadingMatch>)
    ensures r.Some? ==> 1 <= r.value.level <= 6 && r.value.level < |line|
    ensures r.Some? ==> forall i :: 0 <= i < r.value.level ==> line[i] == '#'
    ensures r.Some? ==> line[r.value.level] in RegexSpaces
  {
    var k := HashRun(line);
    if 1 <= k <= 6 && k < |line| && line[k] in RegexSpaces then
      Some(HeadingMatch(k, TrimSet(line[k..], RegexSpaces)))
    else
      None
  }

  /** `reHeading.FindAllStringSubmatch`, line by line. */
  function HeadingMatches(lines: seq<string>): seq<HeadingMatch>
  {
    if lines == [] then []
    else
      HeadingMatches(lines[..|lines| - 1])
      + (match MatchHeading(lines[|lines| - 1]) case Some(m) => [m] case None => [])
  }

  // --------------------------------------------------------- inline-tag regex

  /** The class `[A-Za-z0-9_-]`. */
  predicate IsTagChar(c: char)
  {
    ('A' <= c <= 'Z') || ('a' <= c <= 'z') || ('0' <= c <= '9') || c == '_' || c == '-'
  }

  /** A match of `#[A-Za-z0-9_-]+`. */
  predicate IsInlineTag(t: string)
  {
    |t| >= 2 && t[0] == '#' && forall k :: 1 <= k < |t| ==> IsTagChar(t[k])
  }

  /** The end of the run of tag characters that starts at `i`. */
  function TagRunEnd(s: string, i: nat): (j: nat)
    requires i <= |s|
    ensures i <= j <= |s|
    ensures forall k :: i <= k < j ==> IsTagChar(s[k])
    ensures j == |s| || !IsTagChar(s[j])
    decreases |s| - i
  {
    if i < |s| && IsTagChar(s[i]) then TagRunEnd(s, i + 1) else i
  }

  /** The leftmost, longest, non-overlapping matches of `#[A-Za-z0-9_-]+` from position `i` on. */
  function InlineTagsFrom(s: string, i: nat): (r: seq<string>)
    requires i <= |s|
    ensures forall k :: 0 <= k < |r| ==> IsInlineTag(r[k])
    decreases |s| - i
  {
    if i == |s| then []
    else if s[i] == '#' && i + 1 < |s| && IsTagChar(s[i + 1]) then
      var j := TagRunEnd(s, i + 1);
      var t := s[i..j];
      assert IsInlineTag(t) by {
        forall k | 1 <= k < |t| ensures IsTagChar(t[k]) { assert t[k] == s[i + k]; }
      }
      var rest := InlineTagsFrom(s, j);
      assert forall k :: 0 <= k < |rest| ==> ([t] + rest)[k + 1] == rest[k];
      [t] + rest
    else
      InlineTagsFrom(s, i + 1)
  }

  /** `reInlineTag.FindAllString(s, -1)`. */
  function InlineTags(s: string): seq<string>
  {
    InlineTagsFrom(s, 0)
  }

  // ---------------------------------------------------- bracket-list regex

  const Quotes: set<char> := {'"', '\''}

  /**
   * The regex `(?m)^\s*tags\s*:\s*\[(.*?)\]\s*$` on one line: the text between
   * the `[` and the last `]`, which only `\s` may follow. The key is matched
   * case-sensitively.
   */
  function BracketInner(line: string): Option<string>
  {
    var a := TrimLeftSet(line, RegexSpaces);
    if !HasPrefix(a, "tags") then None
    else
      var b := TrimLeftSet(a[4..], RegexSpaces);
      if !HasPrefix(b, ":") then None
      else
        var c := TrimLeftSet(b[1..], RegexSpaces);
        if !HasPrefix(c, "[") then None
        else
          var d := TrimRightSet(c[1..], RegexSpaces);
          if d == [] || d[|d| - 1] != ']' then None else Some(d[..|d| - 1])
  }

  /** `reYAMLInlineTags.FindAllStringSubmatch`, line by line: the captured texts. */
  function BracketInners(lines: seq<string>): seq<string>
  {
    if lines == [] then []
    else
      BracketInners(lines[..|lines| - 1])
      + (match BracketInner(lines[|lines| - 1]) case Some(inner) => [inner] case None => [])
  }

  /** The tag one comma-separated part gives: trimmed of spaces and quotes, `#` in front, if not empty. */
  function PartValue(p: string): string
  {
    TrimSet(TrimSpace(p), Quotes)
  }

  function PartTag(p: string): seq<string>
  {
    var v := PartValue(p);
    if v == "" then [] else ["#" + v]
  }

  function PartTags(parts: seq<string>): seq<string>
  {
    if parts == [] then [] else PartTags(parts[..|parts| - 1]) + PartTag(parts[|parts| - 1])
  }

  /** The tags of every bracket list, in order. */
  function BracketTags(inners: seq<string>): seq<string>
  {
    if inners == [] then []
    else BracketTags(inners[..|inners| - 1]) + PartTags(Split(inners[|inners| - 1], ','))
  }

  // ------------------------------------------------------------- block list

  /** A frontmatter line without trailing `\r` and surrounding spaces. */
  function CleanLine(raw: string): string
  {
    TrimSpace(TrimRightSet(raw, {'\r'}))
  }

  /** The line opens a block list: its lowercased clean form starts with `tags:`. */
  predicate IsTagsKey(raw: string)
  {
    HasPrefix(ToLower(CleanLine(raw)), "tags:")
  }

  /** The first line at or after `i` that opens a block list. */
  function FirstTagsKey(lines: seq<string>, i: nat): (r: Option<nat>)
    requires i <= |lines|
    ensures r.Some? ==> i <= r.value < |lines| && IsTagsKey(lines[r.value])
    decreases |lines| - i
  {
    if i == |lines| then None
    else if IsTagsKey(lines[i]) then Some(i)
    else FirstTagsKey(lines, i + 1)
  }

  /** The tag a `- value` item gives: the value trimmed of spaces and quotes, `#` in front, if not empty. */
  function ItemValue(clean: string): string
  {
    TrimSet(TrimSpace(TrimPrefix(clean, "- ")), Quotes)
  }

  function ItemTag(clean: string): seq<string>
  {
    var v := ItemValue(clean);
    if v == "" then [] else ["#" + v]
  }

  /** The item tags from line `i` on: blank lines are passed over, any other non-item line ends the list. */
  function ItemRun(lines: seq<string>, i: nat): seq<string>
    requires i <= |lines|
    decreases |lines| - i
  {
    if i == |lines| then []
    else
      var t := CleanLine(lines[i]);
      if HasPrefix(t, "- ") then ItemTag(t) + ItemRun(lines, i + 1)
      else if t == "" then ItemRun(lines, i + 1)
      else []
  }

  /** The items that follow the first `tags:` line. */
  function BlockTags(lines: seq<string>): seq<string>
  {
    match FirstTagsKey(lines, 0)
    case None => []
    case Some(k) => ItemRun(lines, k + 1)
  }

  /**
   * Where the line-by-line scan of `collectYAMLBlockTags` stands: still
   * looking for the `tags:` line, inside the list opened at line `key`, or
   * past its end; `done` are the item tags met so far.
   */
  datatype BlockScan = Seeking | InList(key: nat, done: seq<string>) | Stopped(key: nat, done: seq<string>)

  function ScanDone(st: BlockScan): seq<string>
  {
    if st.Seeking? then [] else st.done
  }

  /** The scan after one more line, line `i`. */
  function ScanLine(st: BlockScan, raw: string, i: nat): BlockScan
  {
    match st
    case Seeking => if IsTagsKey(raw) then InList(i, []) else Seeking
    case InList(k, d) =>
      var t := CleanLine(raw);
      if HasPrefix(t, "- ") then InList(k, d + ItemTag(t))
      else if t == "" then InList(k, d)
      else Stopped(k, d)
    case Stopped(_, _) => st
  }

  /** The scan after the first `i` lines. */
  function ScanBlock(lines: seq<string>, i: nat): BlockScan
    requires i <= |lines|
  {
    if i == 0 then Seeking else ScanLine(ScanBlock(lines, i - 1), lines[i - 1], i - 1)
  }

  // ------------------------------------------------------------ frontmatter

  /** The first line at or after `i` that trims to `---`. */
  function FirstClose(lines: seq<string>, i: nat): (r: Option<nat>)
    requires i <= |lines|
    ensures r.Some? ==> i <= r.value < |lines| && TrimSpace(lines[r.value]) == "---"
    ensures r.Some? ==> forall j :: i <= j < r.value ==> TrimSpace(lines[j]) != "---"
    ensures r.None? ==> forall j :: i <= j < |lines| ==> TrimSpace(lines[j]) != "---"
    decreases |lines| - i
  {
    if i == |lines| then None
    else if TrimSpace(lines[i]) == "---" then Some(i)
    else FirstClose(lines, i + 1)
  }

  /**
   * The frontmatter body: the lines strictly between a first line that trims
   * to `---` (the text itself starting with `---`) and the next line that
   * trims to `---`; empty when either delimiter is missing.
   */
  function Frontmatter(s: string): string
  {
    if !HasPrefix(s, "---") then ""
    else
      var lines := Split(s, '\n');
      if |lines| < 2 || TrimSpace(lines[0]) != "---" then ""
      else
        match FirstClose(lines, 1)
        case None => ""
        case Some(i) => Join(lines[1..i], "\n")
  }

  /** `extractFrontmatter`. */
  method ExtractFrontmatter(s: string) returns (fm: string)
    ensures fm == Frontmatter(s)
  {
    if !HasPrefix(s, "---") {
      return "";
    }
    var lines := Split(s, '\n');
    if |lines| < 2 || TrimSpace(lines[0]) != "---" {
      return "";
    }
    var i := 1;
    while i < |lines|
      invariant 1 <= i <= |lines|
      invariant FirstClose(lines, 1) == FirstClose(lines, i)
    {
      if TrimSpace(lines[i]) == "---" {
        return Join(lines[1..i], "\n");
      }
      i := i + 1;
    }
    return "";
  }

  /** A non-empty frontmatter is exactly the lines between the two delimiters. */
  lemma FrontmatterLines(s: string)
    requires Frontmatter(s) != ""
    ensures HasPrefix(s, "---")
    ensures var lines := Split(s, '\n');
      && TrimSpace(lines[0]) == "---"
      && FirstClose(lines, 1).Some?
      && var i := FirstClose(lines, 1).value;
         i > 1 && Split(Frontmatter(s), '\n') == lines[1..i]
  {
    var lines := Split(s, '\n');
    var i := FirstClose(lines, 1).value;
    SplitJoin(lines[1..i], '\n');
  }

  /** Without a closing delimiter there is no frontmatter. */
  lemma UnclosedFrontmatter(s: string)
    requires forall j :: 1 <= j < |Split(s, '\n')| ==> TrimSpace(Split(s, '\n')[j]) != "---"
    ensures Frontmatter(s) == ""
  {
    var lines := Split(s, '\n');
    if HasPrefix(s, "---") && |lines| >= 2 && TrimSpace(lines[0]) == "---" {
      assert FirstClose(lines, 1).None?;
    }
  }

  // ---------------------------------------------------------- de-duplication

  /** Appends each candidate that is not already present, in candidate order. */
  function AddNew(out: seq<string>, cands: seq<string>): seq<string>
  {
    if cands == [] then out
    else
      var p := AddNew(out, cands[..|cands| - 1]);
      var c := cands[|cands| - 1];
      if c in p then p else p + [c]
  }

  /** The first occurrence of each element, in order. */
  function Dedup(xs: seq<string>): seq<string>
  {
    AddNew([], xs)
  }

  predicate NoDup(xs: seq<string>)
  {
    forall i, j :: 0 <= i < j < |xs| ==> xs[i] != xs[j]
  }

  lemma {:induction false} AddNewAppend(out: seq<string>, a: seq<string>, b: seq<string>)
    ensures AddNew(out, a + b) == AddNew(AddNew(out, a), b)
  {
    if b == [] {
      assert a + b == a;
    } else {
      AddNewAppend(out, a, b[..|b| - 1]);
      assert (a + b)[..|a + b| - 1] == a + b[..|b| - 1];
    }
  }

  /** Adding keeps what was there, at the front, and adds only candidates. */
  lemma {:induction false} AddNewShape(out: seq<string>, cands: seq<string>)
    ensures |out| <= |AddNew(out, cands)| && AddNew(out, cands)[..|out|] == out
    ensures forall x :: x in AddNew(out, cands) <==> x in out || x in cands
    ensures NoDup(out) ==> NoDup(AddNew(out, cands))
  {
    if cands != [] {
      var init := cands[..|cands| - 1];
      AddNewShape(out, init);
      assert cands == init + [cands[|cands| - 1]];
    }
  }

  /** One more candidate. */
  lemma AddNewSnoc(out: seq<string>, cands: seq<string>, c: string)
    ensures AddNew(out, cands + [c]) == var p := AddNew(out, cands); if c in p then p else p + [c]
  {
    assert (cands + [c])[..|cands|] == cands;
  }

  lemma Regroup(a: seq<string>, b: seq<string>, c: seq<string>)
    ensures a + b + c == a + (b + c)
  {
  }

  /** Moving the head `t` of what remains onto what is done keeps the whole. */
  lemma Shift(done: seq<string>, t: seq<string>, rest: seq<string>, remaining: seq<string>, whole: seq<string>)
    requires done + remaining == whole && remaining == t + rest
    ensures (done + t) + rest == whole
  {
  }

  // ------------------------------------------------------ the specification

  /** The heading matches of the whole text. */
  function Matches(s: string): seq<HeadingMatch>
  {
    HeadingMatches(Split(s, '\n'))
  }

  /** The heading texts: each match trimmed, blank ones dropped, in document order. */
  function HeadingTexts(ms: seq<HeadingMatch>): seq<string>
  {
    if ms == [] then []
    else
      var t := TrimSpace(ms[|ms| - 1].text);
      HeadingTexts(ms[..|ms| - 1]) + (if t == "" then [] else [t])
  }

  /** A level-1 heading whose trimmed text is neither blank nor the file name. */
  predicate TitleCandidate(m: HeadingMatch, fileBase: string)
  {
    m.level == 1 && TrimSpace(m.text) != "" && TrimSpace(m.text) != fileBase
  }

  /** The text of the first level-1 heading that differs from the file name, or the file name. */
  function FirstTitle(ms: seq<HeadingMatch>, fileBase: string): string
  {
    if ms == [] then fileBase
    else if TitleCandidate(ms[0], fileBase) then TrimSpace(ms[0].text)
    else FirstTitle(ms[1..], fileBase)
  }

  /** The candidate tags the frontmatter gives: block items, then bracket values. */
  function FrontmatterTags(s: string): seq<string>
  {
    var fm := Frontmatter(s);
    if fm == "" then []
    else
      var lines := Split(fm, '\n');
      BlockTags(lines) + BracketTags(BracketInners(lines))
  }

  function Title(s: string, fileBase: string): string
  {
    FirstTitle(Matches(s), fileBase)
  }

  function Headings(s: string): seq<string>
  {
    HeadingTexts(Matches(s))
  }

  /** Frontmatter tags, then inline tags of the whole text, first occurrence kept. */
  function Tags(s: string): seq<string>
  {
    Dedup(FrontmatterTags(s) + InlineTags(s))
  }

  lemma HeadingTextsStep(ms: seq<HeadingMatch>, i: nat)
    requires i < |ms|
    ensures HeadingTexts(ms[..i + 1])
      == HeadingTexts(ms[..i]) + (if TrimSpace(ms[i].text) == "" then [] else [TrimSpace(ms[i].text)])
  {
    assert ms[..i + 1][..i] == ms[..i];
  }

  lemma PartTagsStep(parts: seq<string>, j: nat)
    requires j < |parts|
    ensures PartTags(parts[..j + 1]) == PartTags(parts[..j]) + PartTag(parts[j])
  {
    assert parts[..j + 1][..j] == parts[..j];
  }

  lemma BracketTagsStep(inners: seq<string>, i: nat)
    requires i < |inners|
    ensures BracketTags(inners[..i + 1]) == BracketTags(inners[..i]) + PartTags(Split(inners[i], ','))
  {
    assert inners[..i + 1][..i] == inners[..i];
  }

  // ------------------------------------------------------------- the methods

  /** A tag is appended unless `seen` already has it; `seen` holds exactly the tags in `out`. */
  method Remember(tag: string, seen: set<string>, out: seq<string>, ghost base: seq<string>, ghost done: seq<string>)
    returns (seen': set<string>, out': seq<string>)
    requires forall x :: x in seen <==> x in out
    requires out == AddNew(base, done)
    ensures out' == AddNew(base, done + [tag])
    ensures forall x :: x in seen' <==> x in out'
  {
    AddNewSnoc(base, done, tag);
    seen', out' := seen, out;
    if tag !in seen {
      seen' := seen + {tag};
      out' := out + [tag];
    }
  }

  /** `collectYAMLBlockTags`: `seen` holds exactly the tags in `out`. */
  method CollectYAMLBlockTags(fm: string, seen: set<string>, out: seq<string>)
    returns (seen': set<string>, out': seq<string>)
    requires forall x :: x in seen <==> x in out
    ensures out' == AddNew(out, BlockTags(Split(fm, '\n')))
    ensures forall x :: x in seen' <==> x in out'
  {
    seen', out' := CollectBlockLines(Split(fm, '\n'), seen, out);
  }

  /** The loop of `collectYAMLBlockTags` over the frontmatter lines. */
  method CollectBlockLines(lines: seq<string>, seen: set<string>, out: seq<string>)
    returns (seen': set<string>, out': seq<string>)
    requires forall x :: x in seen <==> x in out
    ensures out' == AddNew(out, BlockTags(lines))
    ensures forall x :: x in seen' <==> x in out'
  {
    var inTags := false;
    seen', out' := seen, out;
    var i := 0;
    while i < |lines|
      invariant 0 <= i <= |lines|
      invariant forall x :: x in seen' <==> x in out'
      invariant !ScanBlock(lines, i).Stopped? && (inTags <==> ScanBlock(lines, i).InList?)
      invariant out' == AddNew(out, ScanDone(ScanBlock(lines, i)))
    {
      var trim := CleanLine(lines[i]);
      if !inTags {
        if IsTagsKey(lines[i]) {
          inTags := true;
        }
      } else if HasPrefix(trim, "- ") {
        seen', out' := ItemLine(trim, seen', out', out, ScanDone(ScanBlock(lines, i)));
      } else if trim != "" {
        StoppedStays(lines, i + 1);
        break;
      }
      i := i + 1;
    }
    ScanBlockIsBlockTags(lines);
  }

  /** A `- value` line of the block list: its tag, if the value is not empty, is remembered. */
  method ItemLine(trim: string, seen: set<string>, out: seq<string>, ghost base: seq<string>, ghost done: seq<string>)
    returns (seen': set<string>, out': seq<string>)
    requires forall x :: x in seen <==> x in out
    requires out == AddNew(base, done)
    ensures out' == AddNew(base, done + ItemTag(trim))
    ensures forall x :: x in seen' <==> x in out'
  {
    var val := TrimSet(TrimSpace(TrimPrefix(trim, "- ")), Quotes);
    seen', out' := seen, out;
    if val != "" {
      seen', out' := Remember("#" + val, seen, out, base, done);
    } else {
      assert done + [] == done;
    }
  }

  /** Once the list has ended, the scan does not change. */
  lemma {:induction false} StoppedStays(lines: seq<string>, i: nat)
    requires i <= |lines| && ScanBlock(lines, i).Stopped?
    ensures ScanBlock(lines, |lines|) == ScanBlock(lines, i)
    decreases |lines| - i
  {
    if i < |lines| {
      assert ScanBlock(lines, i + 1) == ScanBlock(lines, i);
      StoppedStays(lines, i + 1);
    }
  }

  /** What a scan state says about the first `i` lines: the first `tags:` line and the item run after it. */
  predicate ScanMeans(lines: seq<string>, i: nat, st: BlockScan)
    requires i <= |lines|
  {
    match st
    case Seeking => FirstTagsKey(lines, 0) == FirstTagsKey(lines, i)
    case InList(k, d) => k < i && FirstTagsKey(lines, 0) == Some(k) && d + ItemRun(lines, i) == ItemRun(lines, k + 1)
    case Stopped(k, d) => FirstTagsKey(lines, 0) == Some(k) && d == ItemRun(lines, k + 1)
  }

  /** One more line keeps the meaning of the scan. */
  lemma ScanStep(lines: seq<string>, i: nat, st: BlockScan)
    requires i < |lines| && ScanMeans(lines, i, st)
    ensures ScanMeans(lines, i + 1, ScanLine(st, lines[i], i))
  {
    match st
    case Seeking =>
      KeyStep(lines, i);
    case InList(k, d) =>
      if HasPrefix(CleanLine(lines[i]), "- ") {
        ItemStep(lines, i, k, d);
      } else {
        OtherStep(lines, i, k, d);
      }
    case Stopped(_, _) =>
  }

  /** The scan after `i` lines means what `ScanMeans` says. */
  lemma {:induction false} ScanBlockMeaning(lines: seq<string>, i: nat)
    requires i <= |lines|
    ensures ScanMeans(lines, i, ScanBlock(lines, i))
  {
    if i > 0 {
      ScanBlockMeaning(lines, i - 1);
      ScanStep(lines, i - 1, ScanBlock(lines, i - 1));
    }
  }

  /** The scan over all lines meets exactly the block-list tags. */
  lemma ScanBlockIsBlockTags(lines: seq<string>)
    ensures ScanDone(ScanBlock(lines, |lines|)) == BlockTags(lines)
  {
    ScanBlockMeaning(lines, |lines|);
    MeansAtEnd(lines, ScanBlock(lines, |lines|));
  }

  lemma MeansAtEnd(lines: seq<string>, st: BlockScan)
    requires ScanMeans(lines, |lines|, st)
    ensures ScanDone(st) == BlockTags(lines)
  {
    assert ItemRun(lines, |lines|) == [];
    if st.InList? {
      assert st.done + [] == st.done;
    }
  }

  lemma KeyStep(lines: seq<string>, i: nat)
    requires i < |lines|
    ensures IsTagsKey(lines[i]) ==> FirstTagsKey(lines, i) == Some(i) && [] + ItemRun(lines, i + 1) == ItemRun(lines, i + 1)
    ensures !IsTagsKey(lines[i]) ==> FirstTagsKey(lines, i) == FirstTagsKey(lines, i + 1)
  {
  }

  lemma ItemStep(lines: seq<string>, i: nat, k: nat, done: seq<string>)
    requires k < i < |lines| && HasPrefix(CleanLine(lines[i]), "- ")
    requires done + ItemRun(lines, i) == ItemRun(lines, k + 1)
    ensures (done + ItemTag(CleanLine(lines[i]))) + ItemRun(lines, i + 1) == ItemRun(lines, k + 1)
  {
    Shift(done, ItemTag(CleanLine(lines[i])), ItemRun(lines, i + 1), ItemRun(lines, i), ItemRun(lines, k + 1));
  }

  lemma OtherStep(lines: seq<string>, i: nat, k: nat, done: seq<string>)
    requires k < i < |lines| && !HasPrefix(CleanLine(lines[i]), "- ")
    requires done + ItemRun(lines, i) == ItemRun(lines, k + 1)
    ensures CleanLine(lines[i]) == "" ==> done + ItemRun(lines, i + 1) == ItemRun(lines, k + 1)
    ensures CleanLine(lines[i]) != "" ==> done == ItemRun(lines, k + 1)
  {
    if CleanLine(lines[i]) != "" {
      assert ItemRun(lines, i) == [];
      assert done + [] == done;
    }
  }

  /** `collectYAMLInlineTags`: `seen` holds exactly the tags in `out`. */
  method CollectYAMLInlineTags(fm: string, seen: set<string>, out: seq<string>)
    returns (seen': set<string>, out': seq<string>)
    requires forall x :: x in seen <==> x in out
    ensures out' == AddNew(out, BracketTags(BracketInners(Split(fm, '\n'))))
    ensures forall x :: x in seen' <==> x in out'
  {
    seen', out' := CollectBracketLists(BracketInners(Split(fm, '\n')), seen, out);
  }

  /** The loop of `collectYAMLInlineTags` over the texts between the brackets. */
  method CollectBracketLists(m: seq<string>, seen: set<string>, out: seq<string>)
    returns (seen': set<string>, out': seq<string>)
    requires forall x :: x in seen <==> x in out
    ensures out' == AddNew(out, BracketTags(m))
    ensures forall x :: x in seen' <==> x in out'
  {
    seen', out' := seen, out;
    var i := 0;
    while i < |m|
      invariant 0 <= i <= |m|
      invariant forall x :: x in seen' <==> x in out'
      invariant out' == AddNew(out, BracketTags(m[..i]))
    {
      seen', out' := CollectParts(Split(m[i], ','), seen', out', out, BracketTags(m[..i]));
      BracketTagsStep(m, i);
      i := i + 1;
    }
    assert m[..i] == m;
  }

  /** The inner loop of `collectYAMLInlineTags` over the comma-separated parts of one list. */
  method CollectParts(parts: seq<string>, seen: set<string>, out: seq<string>, ghost base: seq<string>, ghost done: seq<string>)
    returns (seen': set<string>, out': seq<string>)
    requires forall x :: x in seen <==> x in out
    requires out == AddNew(base, done)
    ensures out' == AddNew(base, done + PartTags(parts))
    ensures forall x :: x in seen' <==> x in out'
  {
    seen', out' := seen, out;
    var j := 0;
    assert done + PartTags(parts[..0]) == done;
    while j < |parts|
      invariant 0 <= j <= |parts|
      invariant forall x :: x in seen' <==> x in out'
      invariant out' == AddNew(base, done + PartTags(parts[..j]))
    {
      var val := PartValue(parts[j]);
      PartsStep(done, parts, j);
      if val != "" {
        seen', out' := Remember("#" + val, seen', out', base, done + PartTags(parts[..j]));
      }
      j := j + 1;
    }
    assert parts[..j] == parts;
  }

  /** One more comma-separated part of a bracket list. */
  lemma PartsStep(done: seq<string>, parts: seq<string>, j: nat)
    requires j < |parts|
    ensures var v := PartValue(parts[j]);
      && (v != "" ==> done + PartTags(parts[..j]) + ["#" + v] == done + PartTags(parts[..j + 1]))
      && (v == "" ==> done + PartTags(parts[..j]) == done + PartTags(parts[..j + 1]))
  {
    PartTagsStep(parts, j);
    Regroup(done, PartTags(parts[..j]), PartTag(parts[j]));
  }

  /** The heading loop of `ParseMarkdown`: the texts of the matches and the title. */
  method ScanHeadings(matches: seq<HeadingMatch>, fileBase: string) returns (title: string, headings: seq<string>)
    ensures title == FirstTitle(matches, fileBase)
    ensures headings == HeadingTexts(matches)
  {
    title := fileBase;
    headings := [];
    var i := 0;
    while i < |matches|
      invariant 0 <= i <= |matches|
      invariant headings == HeadingTexts(matches[..i])
      invariant title == FirstTitle(matches[..i], fileBase)
    {
      var m := matches[i];
      var text := TrimSpace(m.text);
      FirstTitleStep(matches, i, fileBase);
      HeadingTextsStep(matches, i);
      if text != "" {
        headings := headings + [text];
        if m.level == 1 && title == fileBase {
          title := text;
        }
      }
      i := i + 1;
    }
    assert matches[..i] == matches;
  }

  /** The inline-tag loop of `ParseMarkdown`: each tag not yet seen is appended. */
  method RememberAll(cands: seq<string>, seen: set<string>, out: seq<string>)
    returns (seen': set<string>, out': seq<string>)
    requires forall x :: x in seen <==> x in out
    ensures out' == AddNew(out, cands)
    ensures forall x :: x in seen' <==> x in out'
  {
    seen', out' := seen, out;
    var j := 0;
    while j < |cands|
      invariant 0 <= j <= |cands|
      invariant forall x :: x in seen' <==> x in out'
      invariant out' == AddNew(out, cands[..j])
    {
      seen', out' := Remember(cands[j], seen', out', out, cands[..j]);
      assert cands[..j] + [cands[j]] == cands[..j + 1];
      j := j + 1;
    }
    assert cands[..j] == cands;
  }

  /** `ParseMarkdown`: title, headings and tags of `s`, with `fileBase` as the fallback title. */
  method ParseMarkdown(s: string, fileBase: string) returns (title: string, headings: seq<string>, tags: seq<string>)
    ensures title == Title(s, fileBase)
    ensures headings == Headings(s)
    ensures tags == Tags(s)
  {
    title, headings := ScanHeadings(Matches(s), fileBase);
    var seen: set<string> := {};
    tags := [];
    var fm := ExtractFrontmatter(s);
    if fm != "" {
      var lines := Split(fm, '\n');
      seen, tags := CollectYAMLBlockTags(fm, seen, tags);
      seen, tags := CollectYAMLInlineTags(fm, seen, tags);
      AddNewAppend([], BlockTags(lines), BracketTags(BracketInners(lines)));
    }
    assert tags == AddNew([], FrontmatterTags(s));
    seen, tags := RememberAll(InlineTags(s), seen, tags);
    AddNewAppend([], FrontmatterTags(s), InlineTags(s));
  }

  // ---------------------------------------------------------------- lemmas

  lemma FirstTitleStep(ms: seq<HeadingMatch>, i: nat, fileBase: string)
    requires i < |ms|
    ensures FirstTitle(ms[..i + 1], fileBase)
      == if FirstTitle(ms[..i], fileBase) == fileBase && TitleCandidate(ms[i], fileBase)
         then TrimSpace(ms[i].text) else FirstTitle(ms[..i], fileBase)
  {
    assert ms[..i + 1] == ms[..i] + [ms[i]];
    FirstTitleSnoc(ms[..i], ms[i], fileBase);
  }

  /** Scanning one more heading: the title changes only while it is still the file name. */
  lemma {:induction false} FirstTitleSnoc(ms: seq<HeadingMatch>, m: HeadingMatch, fileBase: string)
    ensures FirstTitle(ms + [m], fileBase)
      == if FirstTitle(ms, fileBase) == fileBase && TitleCandidate(m, fileBase)
         then TrimSpace(m.text) else FirstTitle(ms, fileBase)
  {
    if ms == [] {
      assert ([] + [m])[1..] == [];
    } else {
      assert (ms + [m])[1..] == ms[1..] + [m];
      FirstTitleSnoc(ms[1..], m, fileBase);
    }
  }

  // ------------------------------------------------------ tag properties

  /** Every candidate tag is `#` followed by at least one character. */
  predicate HashTag(t: string)
  {
    |t| >= 2 && t[0] == '#'
  }

  lemma {:induction false} PartTagsAreHashTags(parts: seq<string>)
    ensures forall t :: t in PartTags(parts) ==> HashTag(t)
  {
    if parts != [] {
      PartTagsAreHashTags(parts[..|parts| - 1]);
    }
  }

  lemma {:induction false} BracketTagsAreHashTags(inners: seq<string>)
    ensures forall t :: t in BracketTags(inners) ==> HashTag(t)
  {
    if inners != [] {
      BracketTagsAreHashTags(inners[..|inners| - 1]);
      PartTagsAreHashTags(Split(inners[|inners| - 1], ','));
    }
  }

  lemma {:induction false} ItemRunAreHashTags(lines: seq<string>, i: nat)
    requires i <= |lines|
    ensures forall t :: t in ItemRun(lines, i) ==> HashTag(t)
    decreases |lines| - i
  {
    if i < |lines| {
      ItemRunAreHashTags(lines, i + 1);
    }
  }

  /** Every tag of a note is `#` followed by a non-empty name. */
  lemma TagsAreHashTags(s: string)
    ensures forall t :: t in Tags(s) ==> HashTag(t)
  {
    var fm := Frontmatter(s);
    if fm != "" {
      var lines := Split(fm, '\n');
      BracketTagsAreHashTags(BracketInners(lines));
      if FirstTagsKey(lines, 0).Some? {
        ItemRunAreHashTags(lines, FirstTagsKey(lines, 0).value + 1);
      }
    }
    AddNewShape([], FrontmatterTags(s) + InlineTags(s));
    forall t | t in InlineTags(s) ensures HashTag(t) {
      var k :| 0 <= k < |InlineTags(s)| && InlineTags(s)[k] == t;
    }
  }

  /** A tag is listed exactly when the frontmatter or the text mentions it, and only once. */
  lemma TagsAreDistinctMentions(s: string)
    ensures NoDup(Tags(s))
    ensures forall t :: t in Tags(s) <==> t in FrontmatterTags(s) || t in InlineTags(s)
  {
    AddNewShape([], FrontmatterTags(s) + InlineTags(s));
  }

  /** The frontmatter tags come first, in their own order, before any tag found only inline. */
  lemma FrontmatterTagsFirst(s: string)
    ensures var d := Dedup(FrontmatterTags(s)); |d| <= |Tags(s)| && Tags(s)[..|d|] == d
  {
    AddNewAppend([], FrontmatterTags(s), InlineTags(s));
    AddNewShape(Dedup(FrontmatterTags(s)), InlineTags(s));
  }

  /** Without a closed frontmatter block only the inline tags count. */
  lemma NoFrontmatterOnlyInline(s: string)
    requires Frontmatter(s) == ""
    ensures Tags(s) == Dedup(InlineTags(s))
  {
    assert FrontmatterTags(s) + InlineTags(s) == InlineTags(s);
  }

  // -------------------------------------------------- heading properties

  lemma {:induction false} HeadingTextsTrimmed(ms: seq<HeadingMatch>)
    ensures forall h :: h in HeadingTexts(ms) ==> h != "" && TrimSpace(h) == h
    ensures |HeadingTexts(ms)| <= |ms|
  {
    if ms != [] {
      HeadingTextsTrimmed(ms[..|ms| - 1]);
      TrimSetIdempotent(ms[|ms| - 1].text, Spaces);
    }
  }

  /** Headings are non-blank, already trimmed, and there is at most one per line. */
  lemma HeadingsTrimmed(s: string)
    ensures forall h :: h in Headings(s) ==> h != "" && TrimSpace(h) == h
    ensures |Headings(s)| <= |Split(s, '\n')|
  {
    HeadingTextsTrimmed(Matches(s));
    HeadingMatchesAtMostOnePerLine(Split(s, '\n'));
  }

  lemma {:induction false} HeadingMatchesAtMostOnePerLine(lines: seq<string>)
    ensures |HeadingMatches(lines)| <= |lines|
  {
    if lines != [] {
      HeadingMatchesAtMostOnePerLine(lines[..|lines| - 1]);
    }
  }

  /**
   * The title is the file name, unless some level-1 heading differs from it:
   * then it is the first such heading, and no earlier level-1 heading does.
   */
  lemma {:induction false} FirstTitleIsFirstCandidate(ms: seq<HeadingMatch>, fileBase: string)
    ensures FirstTitle(ms, fileBase) == fileBase <==> forall i :: 0 <= i < |ms| ==> !TitleCandidate(ms[i], fileBase)
    ensures FirstTitle(ms, fileBase) != fileBase ==>
      exists i :: 0 <= i < |ms| && TitleCandidate(ms[i], fileBase)
        && FirstTitle(ms, fileBase) == TrimSpace(ms[i].text)
        && forall j :: 0 <= j < i ==> !TitleCandidate(ms[j], fileBase)
  {
    if ms != [] {
      FirstTitleIsFirstCandidate(ms[1..], fileBase);
      if !TitleCandidate(ms[0], fileBase) && FirstTitle(ms, fileBase) != fileBase {
        var i :| 0 <= i < |ms[1..]| && TitleCandidate(ms[1..][i], fileBase)
          && FirstTitle(ms[1..], fileBase) == TrimSpace(ms[1..][i].text)
          && forall j :: 0 <= j < i ==> !TitleCandidate(ms[1..][j], fileBase);
        assert TitleCandidate(ms[i + 1], fileBase);
        assert forall j :: 0 <= j < i + 1 ==> !TitleCandidate(ms[j], fileBase) by {
          forall j | 0 <= j < i + 1 ensures !TitleCandidate(ms[j], fileBase) {
            if j > 0 { assert ms[j] == ms[1..][j - 1]; }
          }
        }
      }
      if FirstTitle(ms, fileBase) == fileBase {
        forall i | 0 <= i < |ms| ensures !TitleCandidate(ms[i], fileBase) {
          if i > 0 { assert ms[i] == ms[1..][i - 1]; }
        }
      }
    }
  }
}
