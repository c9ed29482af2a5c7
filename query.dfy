/**
 * The search query: the four search modes and `Parse`, which trims the text
 * the user typed and splits it into whitespace-separated tokens.
 */
module SearchQuery {
  import opened Wrappers
  import opened Text

  /** Where a token is looked for: everywhere, tags, title and headings, or content. */
  datatype Mode = All | Tags | Headings | Content

  /** The mode's number in the program's enumeration. */
  function ModeOrdinal(m: Mode): (n: nat)
    ensures n < 4
  {
    match m
    case All => 0
    case Tags => 1
    case Headings => 2
    case Content => 3
  }

  /** The mode with a given number, if any. */
  function ModeOf(n: int): (m: Option<Mode>)
    ensures m.Some? <==> 0 <= n < 4
  {
    if n == 0 then Some(All)
    else if n == 1 then Some(Tags)
    else if n == 2 then Some(Headings)
    else if n == 3 then Some(Content)
    else None
  }

  /** The four modes are numbered 0 to 3, each number naming exactly one mode. */
  lemma ModeNumbering(m: Mode, n: int)
    ensures ModeOf(ModeOrdinal(m)) == Some(m)
    ensures ModeOf(n).Some? ==> ModeOrdinal(ModeOf(n).value) == n
  {
  }

  /** A parsed query: the trimmed text and its tokens. */
  datatype Query = Query(raw: string, tokens: seq<string>)

  /** `Parse`. */
  function Parse(s: string): Query
  {
    var raw := TrimSpace(s);
    if raw == "" then Query("", []) else Query(raw, Fields(raw))
  }

  /** Removing the surrounding spaces removes no other character. */
  lemma NonSpacesTrimSpace(s: string)
    ensures NonSpaces(TrimSpace(s)) == NonSpaces(s)
  {
    NonSpacesTrimLeft(s);
    NonSpacesTrimRight(TrimLeftSet(s, Spaces));
  }

  lemma NonSpacesTrimLeft(s: string)
    ensures NonSpaces(TrimLeftSet(s, Spaces)) == NonSpaces(s)
  {
    var l := TrimLeftSet(s, Spaces);
    TrimLeftSetShape(s, Spaces);
    var cut := s[..|s| - |l|];
    assert s == cut + l;
    NonSpacesAppend(cut, l);
    NonSpacesOfSpaces(cut);
  }

  lemma NonSpacesTrimRight(l: string)
    ensures NonSpaces(TrimRightSet(l, Spaces)) == NonSpaces(l)
  {
    var r := TrimRightSet(l, Spaces);
    TrimRightSetShape(l, Spaces);
    var cut := l[|r|..];
    assert l == r + cut;
    NonSpacesAppend(r, cut);
    NonSpacesOfSpaces(cut);
  }

  /**
   * The raw text is the input without surrounding whitespace; there are no
   * tokens exactly when it is blank; every token is a non-empty run of
   * non-space characters, and the tokens spell out the input's non-space
   * characters in input order.
   */
  lemma ParseTokens(s: string)
    ensures Parse(s).raw == TrimSpace(s)
    ensures Parse(s).raw == "" <==> Parse(s).tokens == []
    ensures Parse(s).raw == "" <==> AllIn(s, Spaces)
    ensures forall i :: 0 <= i < |Parse(s).tokens| ==> IsWord(Parse(s).tokens[i])
    ensures Concat(Parse(s).tokens) == NonSpaces(s)
  {
    var raw := TrimSpace(s);
    TrimSetEmpty(s, Spaces);
    NonSpacesTrimSpace(s);
    if raw == "" {
      NonSpacesOfSpaces(s);
    } else {
      TrimSetIdempotent(s, Spaces);
      FieldsOfNonBlank(raw);
      FieldsKeepOrder(raw);
    }
  }

  /** Parsing the raw text of a parsed query gives the same query back. */
  lemma ParseIdempotent(s: string)
    ensures Parse(Parse(s).raw) == Parse(s)
  {
    TrimSetIdempotent(s, Spaces);
  }
}
