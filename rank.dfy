/**
 * Search and ranking over the index: a document is kept when every query
 * token is found in the fields the mode selects, its score adds up fixed
 * weights per token, and the results are ordered by score, then title,
 * then relative path.
 */
module SearchRank {
  import opened Wrappers
  import opened Text
  import opened Sorting
  import opened DocIndex
  import opened SearchQuery

  /** A kept document and its score. */
  datatype Result = Result(doc: Doc, score: int)

  // ------------------------------------------------------------ tag tokens

  /** A tag token always starts with `#`: one is added when missing. */
  function NormalizeTagQuery(t: string): (r: string)
    ensures HasPrefix(r, "#")
    ensures HasPrefix(t, "#") ==> r == t
    ensures !HasPrefix(t, "#") ==> r == "#" + t
  {
    if HasPrefix(t, "#") then t else "#" + t
  }

  lemma NormalizeTagQueryIdempotent(t: string)
    ensures NormalizeTagQuery(NormalizeTagQuery(t)) == NormalizeTagQuery(t)
  {
  }

  // ------------------------------------------------------- searched fields

  /** The lowercased title, relative path and file name, separated by spaces. */
  function TitleSpace(d: Doc): string
  {
    ToLower(d.title + " " + d.pathRel + " " + d.fileName)
  }

  /** The lowercased headings, separated by spaces. */
  function HeadSpace(d: Doc): string
  {
    ToLower(Join(d.headings, " "))
  }

  /** The lowercased tags, separated by spaces. */
  function TagSpace(d: Doc): string
  {
    ToLower(Join(d.tags, " "))
  }

  /**
   * Where the lowercased token `t` is found in `d` under `mode`, as the
   * weight that hit earns; `None` when it is not found. Under `All` the
   * first hit in the order title, headings, tags, content decides.
   */
  function TokenHit(d: Doc, t: string, mode: Mode): Option<int>
  {
    match mode
    case Tags => if Contains(TagSpace(d), NormalizeTagQuery(t)) then Some(200) else None
    case Headings =>
      if Contains(TitleSpace(d), t) then Some(300)
      else if Contains(HeadSpace(d), t) then Some(250)
      else None
    case Content => if Contains(d.contentLower, t) then Some(100) else None
    case All =>
      if Contains(TitleSpace(d), t) then Some(300)
      else if Contains(HeadSpace(d), t) then Some(250)
      else if Contains(TagSpace(d), NormalizeTagQuery(t)) then Some(200)
      else if Contains(d.contentLower, t) then Some(100)
      else None
  }

  /** Every token is found in `d` under `mode`, whatever its case. */
  predicate AllFound(d: Doc, tokens: seq<string>, mode: Mode)
  {
    forall i :: 0 <= i < |tokens| ==> TokenHit(d, ToLower(tokens[i]), mode).Some?
  }

  /** The sum of the weights of the tokens' hits. */
  function Score(d: Doc, tokens: seq<string>, mode: Mode): int
  {
    if tokens == [] then 0
    else
      var hit := TokenHit(d, ToLower(tokens[|tokens| - 1]), mode);
      Score(d, tokens[..|tokens| - 1], mode) + (if hit.Some? then hit.value else 0)
  }

  /** What `matchDoc` decides: the score when `d` is kept, `None` when it is not. */
  function MatchSpec(d: Doc, tokens: seq<string>, mode: Mode, rank: bool): Option<int>
  {
    if !AllFound(d, tokens, mode) then None
    else Some(if rank then Score(d, tokens, mode) else 0)
  }

  lemma ScoreStep(d: Doc, tokens: seq<string>, mode: Mode, i: nat)
    requires i < |tokens|
    ensures var hit := TokenHit(d, ToLower(tokens[i]), mode);
      Score(d, tokens[..i + 1], mode) == Score(d, tokens[..i], mode) + (if hit.Some? then hit.value else 0)
  {
    assert tokens[..i + 1][..i] == tokens[..i];
  }

  /**
   * The `switch` on the mode inside `matchDoc`'s loop: whether the lower-cased
   * token `t` is found in the document's search spaces, and with what weight.
   */
  method TokenWeight(d: Doc, titleSpace: string, headSpace: string, tagSpace: string, t: string, mode: Mode)
    returns (found: bool, weight: int)
    requires titleSpace == TitleSpace(d) && headSpace == HeadSpace(d) && tagSpace == TagSpace(d)
    ensures found <==> TokenHit(d, t, mode).Some?
    ensures found ==> weight == TokenHit(d, t, mode).value
  {
    found, weight := false, 0;
    match mode {
      case Tags =>
        found := Contains(tagSpace, NormalizeTagQuery(t));
        weight := 200;
      case Headings =>
        if Contains(titleSpace, t) {
          found, weight := true, 300;
        } else if Contains(headSpace, t) {
          found, weight := true, 250;
        }
      case Content =>
        found := Contains(d.contentLower, t);
        weight := 100;
      case All =>
        if Contains(titleSpace, t) {
          found, weight := true, 300;
        } else if Contains(headSpace, t) {
          found, weight := true, 250;
        } else if Contains(tagSpace, NormalizeTagQuery(t)) {
          found, weight := true, 200;
        } else if Contains(d.contentLower, t) {
          found, weight := true, 100;
        }
    }
  }

  /** `matchDoc`: the tokens are tried in order and the first miss rejects the document. */
  method MatchDoc(d: Doc, q: Query, mode: Mode, rank: bool) returns (score: int, ok: bool)
    ensures ok <==> MatchSpec(d, q.tokens, mode, rank).Some?
    ensures ok ==> score == MatchSpec(d, q.tokens, mode, rank).value
    ensures !ok ==> score == 0
  {
    score := 0;
    var titleSpace := TitleSpace(d);
    var headSpace := HeadSpace(d);
    var tagSpace := TagSpace(d);
    var i := 0;
    assert q.tokens[..0] == [];
    while i < |q.tokens|
      invariant 0 <= i <= |q.tokens|
      invariant MatchSpec(d, q.tokens[..i], mode, rank) == Some(score)
    {
      var t := ToLower(q.tokens[i]);
      var found, weight := TokenWeight(d, titleSpace, headSpace, tagSpace, t, mode);
      if !found {
        MatchMisses(d, q.tokens, mode, rank, i);
        return 0, false;
      }
      MatchStep(d, q.tokens, mode, rank, i);
      if rank {
        score := score + weight;
      }
      i := i + 1;
    }
    assert q.tokens[..i] == q.tokens;
    ok := true;
  }

  /** Deciding one more token: a miss rejects, a hit adds its weight when ranking. */
  lemma MatchStep(d: Doc, tokens: seq<string>, mode: Mode, rank: bool, i: nat)
    requires i < |tokens|
    ensures var hit := TokenHit(d, ToLower(tokens[i]), mode);
      var before := MatchSpec(d, tokens[..i], mode, rank);
      MatchSpec(d, tokens[..i + 1], mode, rank)
      == if before.None? || hit.None? then None else Some(before.value + (if rank then hit.value else 0))
  {
    assert tokens[..i + 1] == tokens[..i] + [tokens[i]];
    AllFoundSnoc(d, tokens[..i], tokens[i], mode);
    ScoreStep(d, tokens, mode, i);
  }

  lemma AllFoundSnoc(d: Doc, pre: seq<string>, t: string, mode: Mode)
    ensures AllFound(d, pre + [t], mode) <==> AllFound(d, pre, mode) && TokenHit(d, ToLower(t), mode).Some?
  {
    var p := pre + [t];
    if AllFound(d, pre, mode) && TokenHit(d, ToLower(t), mode).Some? {
      forall j | 0 <= j < |p| ensures TokenHit(d, ToLower(p[j]), mode).Some? {
        if j < |pre| {
          assert p[j] == pre[j];
        }
      }
    }
    if AllFound(d, p, mode) {
      forall j | 0 <= j < |pre| ensures TokenHit(d, ToLower(pre[j]), mode).Some? {
        assert pre[j] == p[j];
      }
      assert p[|pre|] == t;
    }
  }

  /** A token that is not found rejects the document. */
  lemma MatchMisses(d: Doc, tokens: seq<string>, mode: Mode, rank: bool, i: nat)
    requires i < |tokens| && TokenHit(d, ToLower(tokens[i]), mode).None?
    ensures MatchSpec(d, tokens, mode, rank).None?
  {
  }

  // ---------------------------------------------------------------- search

  /** The results of the documents kept, in index order, before sorting. */
  function Kept(docs: seq<Doc>, tokens: seq<string>, mode: Mode, rank: bool): seq<Result>
  {
    if docs == [] then []
    else
      var d := docs[|docs| - 1];
      var m := MatchSpec(d, tokens, mode, rank);
      Kept(docs[..|docs| - 1], tokens, mode, rank) + (if m.Some? then [Result(d, m.value)] else [])
  }

  /** The order of the results: higher score first, then lowercased title, then relative path. */
  function ResultKey(r: Result): Key
  {
    Key(-r.score, ToLower(r.doc.title), r.doc.pathRel)
  }

  /** Every document with score 0, in index order. */
  function Unranked(docs: seq<Doc>): (r: seq<Result>)
  {
    seq(|docs|, i requires 0 <= i < |docs| => Result(docs[i], 0))
  }

  /** `Search`. */
  function SearchSpec(docs: seq<Doc>, q: Query, mode: Mode, rank: bool): seq<Result>
  {
    if TrimSpace(q.raw) == "" then Unranked(docs)
    else SortBy(Kept(docs, q.tokens, mode, rank), ResultKey)
  }

  lemma KeptStep(docs: seq<Doc>, tokens: seq<string>, mode: Mode, rank: bool, i: nat)
    requires i < |docs|
    ensures var m := MatchSpec(docs[i], tokens, mode, rank);
      Kept(docs[..i + 1], tokens, mode, rank)
        == Kept(docs[..i], tokens, mode, rank) + (if m.Some? then [Result(docs[i], m.value)] else [])
  {
    assert docs[..i + 1][..i] == docs[..i];
  }

  /** `Search`: the blank query lists every document; otherwise the kept ones, sorted. */
  method Search(idx: Index, q: Query, mode: Mode, rank: bool) returns (out: seq<Result>)
    ensures out == SearchSpec(idx.docs, q, mode, rank)
  {
    out := [];
    if TrimSpace(q.raw) == "" {
      for i := 0 to |idx.docs|
        invariant out == Unranked(idx.docs[..i])
      {
        out := out + [Result(idx.docs[i], 0)];
      }
      assert idx.docs[..|idx.docs|] == idx.docs;
      return;
    }
    for i := 0 to |idx.docs|
      invariant out == Kept(idx.docs[..i], q.tokens, mode, rank)
    {
      var score, ok := MatchDoc(idx.docs[i], q, mode, rank);
      KeptStep(idx.docs, q.tokens, mode, rank, i);
      if ok {
        out := out + [Result(idx.docs[i], score)];
      }
    }
    assert idx.docs[..|idx.docs|] == idx.docs;
    out := SortBy(out, ResultKey);
  }

  // ------------------------------------------------------------ properties

  /** The documents of a list of results, in order. */
  function DocsOfResults(rs: seq<Result>): (r: seq<Doc>)
    ensures |r| == |rs|
  {
    seq(|rs|, i requires 0 <= i < |rs| => rs[i].doc)
  }

  /** The documents in which every token is found, in index order, each as often as it is indexed. */
  function Matching(docs: seq<Doc>, tokens: seq<string>, mode: Mode): seq<Doc>
  {
    if docs == [] then []
    else
      var d := docs[|docs| - 1];
      Matching(docs[..|docs| - 1], tokens, mode) + (if AllFound(d, tokens, mode) then [d] else [])
  }

  /** A blank query lists every document in index order with score 0, whatever the mode and rank. */
  lemma SearchBlank(docs: seq<Doc>, q: Query, mode: Mode, rank: bool)
    requires TrimSpace(q.raw) == ""
    ensures |SearchSpec(docs, q, mode, rank)| == |docs|
    ensures forall i :: 0 <= i < |docs| ==> SearchSpec(docs, q, mode, rank)[i] == Result(docs[i], 0)
  {
  }

  /**
   * Before sorting, the kept documents are the matching ones in index order,
   * each with the score `matchDoc` gives it.
   */
  lemma {:induction false} KeptIsMatching(docs: seq<Doc>, tokens: seq<string>, mode: Mode, rank: bool)
    ensures DocsOfResults(Kept(docs, tokens, mode, rank)) == Matching(docs, tokens, mode)
    ensures forall r :: r in Kept(docs, tokens, mode, rank) ==> MatchSpec(r.doc, tokens, mode, rank) == Some(r.score)
    ensures |Matching(docs, tokens, mode)| <= |docs|
  {
    if docs != [] {
      var init := docs[..|docs| - 1];
      KeptIsMatching(init, tokens, mode, rank);
      var d := docs[|docs| - 1];
      var m := MatchSpec(d, tokens, mode, rank);
      var tail := if m.Some? then [Result(d, m.value)] else [];
      DocsOfResultsAppend(Kept(init, tokens, mode, rank), tail);
    }
  }

  lemma DocsOfResultsAppend(a: seq<Result>, b: seq<Result>)
    ensures DocsOfResults(a + b) == DocsOfResults(a) + DocsOfResults(b)
  {
  }

  /** A document is among the matching ones exactly when it is indexed and every token is found in it. */
  lemma {:induction false} MatchingMembers(docs: seq<Doc>, tokens: seq<string>, mode: Mode, d: Doc)
    ensures d in Matching(docs, tokens, mode) <==> d in docs && AllFound(d, tokens, mode)
  {
    if docs != [] {
      var init := docs[..|docs| - 1];
      MatchingMembers(init, tokens, mode, d);
      assert docs == init + [docs[|docs| - 1]];
    }
  }

  /**
   * A non-blank query keeps exactly the documents in which every token is
   * found, each once per indexing, with its score; so it returns at most
   * as many results as there are documents.
   */
  lemma SearchKeepsMatching(docs: seq<Doc>, q: Query, mode: Mode, rank: bool)
    requires TrimSpace(q.raw) != ""
    ensures multiset(DocsOfResults(SearchSpec(docs, q, mode, rank))) == multiset(Matching(docs, q.tokens, mode))
    ensures forall r :: r in SearchSpec(docs, q, mode, rank) ==> MatchSpec(r.doc, q.tokens, mode, rank) == Some(r.score)
    ensures |SearchSpec(docs, q, mode, rank)| <= |docs|
  {
    var kept := Kept(docs, q.tokens, mode, rank);
    KeptIsMatching(docs, q.tokens, mode, rank);
    SortBySortsAndPermutes(kept, ResultKey);
    PermutedDocs(SortBy(kept, ResultKey), kept);
    forall r | r in SortBy(kept, ResultKey) ensures r in kept {
      assert r in multiset(SortBy(kept, ResultKey));
    }
  }

  /** Permuting results permutes their documents. */
  lemma {:induction false} PermutedDocs(a: seq<Result>, b: seq<Result>)
    requires multiset(a) == multiset(b)
    ensures multiset(DocsOfResults(a)) == multiset(DocsOfResults(b))
    decreases |a|
  {
    if a == [] {
      assert |b| == |multiset(b)| == 0;
    } else {
      var x := a[|a| - 1];
      var init := a[..|a| - 1];
      assert a == init + [x];
      assert x in multiset(b);
      var k :| 0 <= k < |b| && b[k] == x;
      var rest := b[..k] + b[k + 1..];
      assert b == b[..k] + [x] + b[k + 1..];
      assert multiset(b) == multiset(rest) + multiset{x};
      assert multiset(a) == multiset(init) + multiset{x};
      assert multiset(rest) == multiset(b) - multiset{x} == multiset(a) - multiset{x} == multiset(init);
      PermutedDocs(init, rest);
      DocsOfResultsAppend(init, [x]);
      DocsOfResultsAppend(b[..k] + [x], b[k + 1..]);
      DocsOfResultsAppend(b[..k], [x]);
      DocsOfResultsAppend(b[..k], b[k + 1..]);
    }
  }

  /** With rank off every score is 0. */
  lemma RankOffScoresZero(docs: seq<Doc>, q: Query, mode: Mode)
    ensures forall r :: r in SearchSpec(docs, q, mode, false) ==> r.score == 0
  {
    if TrimSpace(q.raw) != "" {
      SearchKeepsMatching(docs, q, mode, false);
    }
  }

  /** Ranking changes the order and the scores, never which documents are returned. */
  lemma RankKeepsSameDocs(docs: seq<Doc>, q: Query, mode: Mode)
    ensures multiset(DocsOfResults(SearchSpec(docs, q, mode, true)))
         == multiset(DocsOfResults(SearchSpec(docs, q, mode, false)))
  {
    if TrimSpace(q.raw) != "" {
      SearchKeepsMatching(docs, q, mode, true);
      SearchKeepsMatching(docs, q, mode, false);
    }
  }

  /**
   * A kept document's ranked score lies between 100 and 300 per token; in
   * `Tags` mode it is exactly 200 per token, in `Content` mode exactly 100,
   * in `Headings` mode at least 250.
   */
  lemma {:induction false} ScoreWeights(d: Doc, tokens: seq<string>, mode: Mode)
    requires AllFound(d, tokens, mode)
    ensures 100 * |tokens| <= Score(d, tokens, mode) <= 300 * |tokens|
    ensures mode == Tags ==> Score(d, tokens, mode) == 200 * |tokens|
    ensures mode == Content ==> Score(d, tokens, mode) == 100 * |tokens|
    ensures mode == Headings ==> Score(d, tokens, mode) >= 250 * |tokens|
  {
    if tokens != [] {
      var init := tokens[..|tokens| - 1];
      assert AllFound(d, init, mode) by {
        forall i | 0 <= i < |init| ensures TokenHit(d, ToLower(init[i]), mode).Some? {
          assert init[i] == tokens[i];
        }
      }
      ScoreWeights(d, init, mode);
      assert TokenHit(d, ToLower(tokens[|tokens| - 1]), mode).Some?;
    }
  }

  /**
   * Under `All` the first rung that holds decides the weight: the title
   * space earns 300, else the headings 250, else the tags 200, else the
   * content 100; so `All` is the first hit of the single modes `Headings`,
   * `Tags` and `Content`, in that order.
   */
  lemma AllModePriority(d: Doc, t: string)
    ensures Contains(TitleSpace(d), t) ==> TokenHit(d, t, All) == Some(300)
    ensures !Contains(TitleSpace(d), t) && Contains(HeadSpace(d), t) ==> TokenHit(d, t, All) == Some(250)
    ensures !Contains(TitleSpace(d), t) && !Contains(HeadSpace(d), t) && Contains(TagSpace(d), NormalizeTagQuery(t)) ==>
      TokenHit(d, t, All) == Some(200)
    ensures (!Contains(TitleSpace(d), t) && !Contains(HeadSpace(d), t) && !Contains(TagSpace(d), NormalizeTagQuery(t))
             && Contains(d.contentLower, t)) ==> TokenHit(d, t, All) == Some(100)
    ensures TokenHit(d, t, All) ==
      if TokenHit(d, t, Headings).Some? then TokenHit(d, t, Headings)
      else if TokenHit(d, t, Tags).Some? then TokenHit(d, t, Tags)
      else TokenHit(d, t, Content)
    ensures TokenHit(d, t, All).Some? <==>
      || TokenHit(d, t, Headings).Some? || TokenHit(d, t, Tags).Some? || TokenHit(d, t, Content).Some?
  {
  }

  /** Queries whose tokens differ only in letter case are matched and scored alike. */
  lemma {:induction false} MatchIgnoresTokenCase(d: Doc, a: seq<string>, b: seq<string>, mode: Mode, rank: bool)
    requires |a| == |b|
    requires forall i :: 0 <= i < |a| ==> ToLower(a[i]) == ToLower(b[i])
    ensures MatchSpec(d, a, mode, rank) == MatchSpec(d, b, mode, rank)
  {
    ScoreIgnoresTokenCase(d, a, b, mode);
  }

  lemma {:induction false} ScoreIgnoresTokenCase(d: Doc, a: seq<string>, b: seq<string>, mode: Mode)
    requires |a| == |b|
    requires forall i :: 0 <= i < |a| ==> ToLower(a[i]) == ToLower(b[i])
    ensures Score(d, a, mode) == Score(d, b, mode)
  {
    if a != [] {
      ScoreIgnoresTokenCase(d, a[..|a| - 1], b[..|b| - 1], mode);
    }
  }

  lemma ToLowerAppend(a: string, b: string)
    ensures ToLower(a + b) == ToLower(a) + ToLower(b)
  {
  }

  /** Documents whose titles differ only in letter case are matched and scored alike. */
  lemma MatchIgnoresTitleCase(d: Doc, title: string, tokens: seq<string>, mode: Mode, rank: bool)
    requires ToLower(title) == ToLower(d.title)
    ensures MatchSpec(d.(title := title), tokens, mode, rank) == MatchSpec(d, tokens, mode, rank)
  {
    var rest := " " + d.pathRel + " " + d.fileName;
    assert title + " " + d.pathRel + " " + d.fileName == title + rest;
    assert d.title + " " + d.pathRel + " " + d.fileName == d.title + rest;
    ToLowerAppend(title, rest);
    ToLowerAppend(d.title, rest);
    assert TitleSpace(d.(title := title)) == TitleSpace(d);
    TokenHitSameSpaces(d.(title := title), d, tokens, mode);
  }

  lemma {:induction false} TokenHitSameSpaces(d: Doc, e: Doc, tokens: seq<string>, mode: Mode)
    requires TitleSpace(d) == TitleSpace(e) && HeadSpace(d) == HeadSpace(e)
    requires TagSpace(d) == TagSpace(e) && d.contentLower == e.contentLower
    ensures AllFound(d, tokens, mode) == AllFound(e, tokens, mode)
    ensures Score(d, tokens, mode) == Score(e, tokens, mode)
  {
    if tokens != [] {
      TokenHitSameSpaces(d, e, tokens[..|tokens| - 1], mode);
    }
  }

  /**
   * Non-blank results are ordered by score, highest first; equal scores by
   * lowercased title; equal titles by relative path.
   */
  lemma SearchOrdered(docs: seq<Doc>, q: Query, mode: Mode, rank: bool, i: nat, j: nat)
    requires TrimSpace(q.raw) != ""
    requires i < j < |SearchSpec(docs, q, mode, rank)|
    ensures var r := SearchSpec(docs, q, mode, rank);
      && r[i].score >= r[j].score
      && (r[i].score == r[j].score ==> !StrLess(ToLower(r[j].doc.title), ToLower(r[i].doc.title)))
      && (r[i].score == r[j].score && ToLower(r[i].doc.title) == ToLower(r[j].doc.title) ==>
            !StrLess(r[j].doc.pathRel, r[i].doc.pathRel))
  {
    SortBySortsAndPermutes(Kept(docs, q.tokens, mode, rank), ResultKey);
    var r := SearchSpec(docs, q, mode, rank);
    assert !KeyLess(ResultKey(r[j]), ResultKey(r[i]));
  }

  /** Any two results are ordered one way or the other unless their keys coincide. */
  lemma ResultOrderTotal(a: Result, b: Result)
    ensures ResultKey(a) == ResultKey(b) || KeyLess(ResultKey(a), ResultKey(b)) || KeyLess(ResultKey(b), ResultKey(a))
  {
    KeyLessTotal(ResultKey(a), ResultKey(b));
  }
}
