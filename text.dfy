/**
 * The parts of Go's `strings`, `strconv` and `path/filepath` packages that the
 * core relies on, over text as a sequence of characters. Whitespace and case
 * are the ASCII subset of Go's Unicode rules.
 */
module Text {

  /** The characters Go's `unicode.IsSpace` accepts, restricted to ASCII. */
  const Spaces: set<char> := {' ', '\t', '\n', '\U{000B}', '\U{000C}', '\r'}

  /** The class `\s` of Go's regexp syntax: the same set without the vertical tab. */
  const RegexSpaces: set<char> := {' ', '\t', '\n', '\U{000C}', '\r'}

  predicate IsSpace(c: char) { c in Spaces }

  predicate AllIn(s: string, cut: set<char>) { forall i :: 0 <= i < |s| ==> s[i] in cut }

  // ---------------------------------------------------------------- trimming

  /** `strings.TrimLeft(s, cut)`: drops the leading characters that are in `cut`. */
  function TrimLeftSet(s: string, cut: set<char>): (r: string)
    ensures |r| <= |s|
    decreases |s|
  {
    if |s| > 0 && s[0] in cut then TrimLeftSet(s[1..], cut) else s
  }

  /** What `TrimLeftSet` removes is a prefix made of `cut`, and what it keeps does not start with `cut`. */
  lemma {:induction false} TrimLeftSetShape(s: string, cut: set<char>)
    ensures var r := TrimLeftSet(s, cut);
      && r == s[|s| - |r|..]
      && (r == [] || r[0] !in cut)
      && AllIn(s[..|s| - |r|], cut)
    decreases |s|
  {
    if |s| > 0 && s[0] in cut {
      TrimLeftSetShape(s[1..], cut);
    }
  }

  /** `strings.TrimRight(s, cut)`: drops the trailing characters that are in `cut`. */
  function TrimRightSet(s: string, cut: set<char>): (r: string)
    ensures |r| <= |s|
    decreases |s|
  {
    if |s| > 0 && s[|s| - 1] in cut then TrimRightSet(s[..|s| - 1], cut) else s
  }

  /** What `TrimRightSet` removes is a suffix made of `cut`, and what it keeps does not end with `cut`. */
  lemma {:induction false} TrimRightSetShape(s: string, cut: set<char>)
    ensures var r := TrimRightSet(s, cut);
      && r == s[..|r|]
      && (r == [] || r[|r| - 1] !in cut)
      && AllIn(s[|r|..], cut)
    decreases |s|
  {
    if |s| > 0 && s[|s| - 1] in cut {
      TrimRightSetShape(s[..|s| - 1], cut);
    }
  }

  /** `strings.Trim(s, cut)`. */
  function TrimSet(s: string, cut: set<char>): string
  {
    TrimRightSet(TrimLeftSet(s, cut), cut)
  }

  /** `strings.TrimSpace`. */
  function TrimSpace(s: string): string
  {
    TrimSet(s, Spaces)
  }

  /** Trimming strips both ends of the text. */
  lemma TrimSetShape(s: string, cut: set<char>)
    ensures var r := TrimSet(s, cut); r == [] || (r[0] !in cut && r[|r| - 1] !in cut)
  {
    var l := TrimLeftSet(s, cut);
    TrimLeftSetShape(s, cut);
    TrimRightSetShape(l, cut);
  }

  /** A text whose ends are not in `cut` is left alone by trimming. */
  lemma TrimSetNoop(s: string, cut: set<char>)
    requires s == [] || (s[0] !in cut && s[|s| - 1] !in cut)
    ensures TrimSet(s, cut) == s
  {
  }

  /** Trimming twice is trimming once. */
  lemma TrimSetIdempotent(s: string, cut: set<char>)
    ensures TrimSet(TrimSet(s, cut), cut) == TrimSet(s, cut)
  {
    TrimSetShape(s, cut);
    TrimSetNoop(TrimSet(s, cut), cut);
  }

  /** A text trims to nothing exactly when every character of it is cut. */
  lemma TrimSetEmpty(s: string, cut: set<char>)
    ensures TrimSet(s, cut) == [] <==> AllIn(s, cut)
  {
    var l := TrimLeftSet(s, cut);
    TrimLeftSetShape(s, cut);
    TrimRightSetShape(l, cut);
    assert l != [] ==> l[0] == s[|s| - |l|];
    if TrimSet(s, cut) == [] {
      assert AllIn(l[0..], cut);
      assert s == s[..|s| - |l|] + l;
    }
  }

  // ------------------------------------------------------------ case, prefix

  /** `unicode.ToLower` on ASCII letters. */
  function Lower(c: char): char
  {
    if 'A' <= c <= 'Z' then (c as int + 32) as char else c
  }

  /** `strings.ToLower`. */
  function ToLower(s: string): string
  {
    seq(|s|, i requires 0 <= i < |s| => Lower(s[i]))
  }

  lemma ToLowerIdempotent(s: string)
    ensures ToLower(ToLower(s)) == ToLower(s)
  {
  }

  /** `strings.HasPrefix`. */
  predicate HasPrefix(s: string, p: string)
  {
    |p| <= |s| && s[..|p|] == p
  }

  /** `strings.TrimPrefix`. */
  function TrimPrefix(s: string, p: string): string
  {
    if HasPrefix(s, p) then s[|p|..] else s
  }

  /** `strings.TrimSuffix`. */
  function TrimSuffix(s: string, suffix: string): string
  {
    if |suffix| <= |s| && s[|s| - |suffix|..] == suffix then s[..|s| - |suffix|] else s
  }

  /** `strings.Contains`: `t` occurs in `s` at some offset. */
  predicate Contains(s: string, t: string)
  {
    exists i | 0 <= i <= |s| - |t| :: OccursAt(s, t, i)
  }

  predicate OccursAt(s: string, t: string, i: int)
  {
    0 <= i <= |s| - |t| && s[i..i + |t|] == t
  }

  // ------------------------------------------------------------ split, join

  /** The position of the first `c` in `s`. */
  function IndexOf(s: string, c: char): (k: nat)
    requires c in s
    ensures k < |s| && s[k] == c && c !in s[..k]
  {
    if s[0] == c then 0 else assert s == [s[0]] + s[1..]; 1 + IndexOf(s[1..], c)
  }

  /** `strings.Split(s, string(sep))`: the pieces between the separators, at least one. */
  function Split(s: string, sep: char): (r: seq<string>)
    ensures |r| >= 1
    ensures forall i :: 0 <= i < |r| ==> sep !in r[i]
    decreases |s|
  {
    if sep in s then
      var k := IndexOf(s, sep);
      [s[..k]] + Split(s[k + 1..], sep)
    else
      [s]
  }

  /** `strings.Join`. */
  function Join(parts: seq<string>, sep: string): string
  {
    if |parts| == 0 then ""
    else if |parts| == 1 then parts[0]
    else parts[0] + sep + Join(parts[1..], sep)
  }

  /** Joining the pieces of a split with the separator gives back the text. */
  lemma {:induction false} JoinSplit(s: string, sep: char)
    ensures Join(Split(s, sep), [sep]) == s
    decreases |s|
  {
    if sep in s {
      var k := IndexOf(s, sep);
      var rest := Split(s[k + 1..], sep);
      var parts := [s[..k]] + rest;
      assert Split(s, sep) == parts;
      assert parts[0] == s[..k] && parts[1..] == rest;
      assert Join(parts, [sep]) == s[..k] + [sep] + Join(rest, [sep]);
      JoinSplit(s[k + 1..], sep);
      assert s == s[..k] + [sep] + s[k + 1..];
    }
  }

  /** Splitting a join of separator-free pieces gives back the pieces. */
  lemma {:induction false} SplitJoin(parts: seq<string>, sep: char)
    requires |parts| >= 1
    requires forall i :: 0 <= i < |parts| ==> sep !in parts[i]
    ensures Split(Join(parts, [sep]), sep) == parts
  {
    if |parts| > 1 {
      var s := Join(parts, [sep]);
      var rest := Join(parts[1..], [sep]);
      SplitJoin(parts[1..], sep);
      assert s == parts[0] + [sep] + rest;
      assert s[|parts[0]|] == sep;
      assert s[..|parts[0]|] == parts[0];
      assert IndexOf(s, sep) == |parts[0]|;
      assert s[|parts[0]| + 1..] == rest;
    }
  }

  // ----------------------------------------------------------------- fields

  /** The length of the run of non-space characters that starts `s`. */
  function WordLen(s: string): (w: nat)
    ensures w <= |s|
    ensures forall k :: 0 <= k < w ==> !IsSpace(s[k])
    ensures w == |s| || IsSpace(s[w])
  {
    if |s| == 0 || IsSpace(s[0]) then 0 else 1 + WordLen(s[1..])
  }

  /** A non-empty text without spaces. */
  predicate IsWord(t: string)
  {
    |t| > 0 && forall k :: 0 <= k < |t| ==> !IsSpace(t[k])
  }

  /** `strings.Fields`: the maximal runs of non-space characters, in order. */
  function Fields(s: string): (r: seq<string>)
    ensures forall i :: 0 <= i < |r| ==> IsWord(r[i])
    decreases |s|
  {
    var t := TrimLeftSet(s, Spaces);
    if t == [] then []
    else
      var w := WordLen(t);
      assert w > 0 by { TrimLeftSetShape(s, Spaces); }
      var word := t[..w];
      assert IsWord(word) by {
        forall k | 0 <= k < |word| ensures !IsSpace(word[k]) { assert word[k] == t[k]; }
      }
      var rest := Fields(t[w..]);
      var r := [word] + rest;
      assert forall i :: 0 <= i < |r| ==> IsWord(r[i]) by {
        forall i | 0 <= i < |r| ensures IsWord(r[i]) { if i > 0 { assert r[i] == rest[i - 1]; } }
      }
      r
  }

  /** The text with every space removed. */
  function NonSpaces(s: string): string
  {
    if s == [] then [] else (if IsSpace(s[0]) then [] else [s[0]]) + NonSpaces(s[1..])
  }

  /** The concatenation of a list of texts. */
  function Concat(parts: seq<string>): string
  {
    if parts == [] then [] else parts[0] + Concat(parts[1..])
  }

  lemma {:induction false} NonSpacesAppend(a: string, b: string)
    ensures NonSpaces(a + b) == NonSpaces(a) + NonSpaces(b)
  {
    if a != [] {
      NonSpacesAppend(a[1..], b);
      assert (a + b)[1..] == a[1..] + b;
    } else {
      assert a + b == b;
    }
  }

  lemma NonSpacesOfSpaces(s: string)
    requires AllIn(s, Spaces)
    ensures NonSpaces(s) == []
  {
  }

  lemma {:induction false} NonSpacesOfWord(s: string)
    requires forall k :: 0 <= k < |s| ==> !IsSpace(s[k])
    ensures NonSpaces(s) == s
  {
    if s != [] {
      NonSpacesOfWord(s[1..]);
    }
  }

  /** The fields keep every non-space character of the input, in input order. */
  lemma {:induction false} FieldsKeepOrder(s: string)
    ensures Concat(Fields(s)) == NonSpaces(s)
    decreases |s|
  {
    var t := TrimLeftSet(s, Spaces);
    TrimLeftSetShape(s, Spaces);
    var lead := s[..|s| - |t|];
    assert s == lead + t;
    NonSpacesAppend(lead, t);
    NonSpacesOfSpaces(lead);
    if t != [] {
      var w := WordLen(t);
      FieldsKeepOrder(t[w..]);
      FieldsFirstWord(s, t, w);
    }
  }

  lemma FieldsFirstWord(s: string, t: string, w: nat)
    requires t == TrimLeftSet(s, Spaces) && t != [] && w == WordLen(t)
    requires Concat(Fields(t[w..])) == NonSpaces(t[w..])
    ensures Concat(Fields(s)) == NonSpaces(t)
  {
    var rest := Fields(t[w..]);
    FieldsCons(s, t, w);
    ConcatCons(t[..w], rest);
    SplitNonSpaces(t, w);
  }

  lemma FieldsCons(s: string, t: string, w: nat)
    requires t == TrimLeftSet(s, Spaces) && t != [] && w == WordLen(t)
    ensures Fields(s) == [t[..w]] + Fields(t[w..])
  {
  }

  lemma ConcatCons(x: string, rest: seq<string>)
    ensures Concat([x] + rest) == x + Concat(rest)
  {
    assert ([x] + rest)[1..] == rest;
  }

  lemma SplitNonSpaces(t: string, w: nat)
    requires w == WordLen(t)
    ensures NonSpaces(t) == t[..w] + NonSpaces(t[w..])
  {
    assert t == t[..w] + t[w..];
    NonSpacesAppend(t[..w], t[w..]);
    NonSpacesOfWord(t[..w]);
  }

  /** A text that is not blank has at least one field. */
  lemma FieldsOfNonBlank(s: string)
    requires TrimSpace(s) != []
    ensures |Fields(s)| >= 1
  {
  }

  // ---------------------------------------------------------------- ordering

  /** Go's `<` on strings: lexicographic order of the characters. */
  predicate StrLess(a: string, b: string)
  {
    if |a| == 0 then |b| > 0
    else if |b| == 0 then false
    else if a[0] != b[0] then a[0] < b[0]
    else StrLess(a[1..], b[1..])
  }

  lemma {:induction false} StrLessIrreflexive(a: string)
    ensures !StrLess(a, a)
  {
    if |a| > 0 { StrLessIrreflexive(a[1..]); }
  }

  lemma {:induction false} StrLessTransitive(a: string, b: string, c: string)
    requires StrLess(a, b) && StrLess(b, c)
    ensures StrLess(a, c)
  {
    if |a| > 0 && |b| > 0 && |c| > 0 && a[0] == b[0] && b[0] == c[0] {
      StrLessTransitive(a[1..], b[1..], c[1..]);
    }
  }

  lemma {:induction false} StrLessTotal(a: string, b: string)
    ensures a == b || StrLess(a, b) || StrLess(b, a)
  {
    if |a| > 0 && |b| > 0 && a[0] == b[0] {
      StrLessTotal(a[1..], b[1..]);
      if a[1..] == b[1..] {
        assert a == [a[0]] + a[1..] && b == [b[0]] + b[1..];
      }
    }
  }

  lemma StrLessAsymmetric(a: string, b: string)
    ensures !(StrLess(a, b) && StrLess(b, a))
  {
    if StrLess(a, b) && StrLess(b, a) {
      StrLessTransitive(a, b, a);
      StrLessIrreflexive(a);
    }
  }

  // ------------------------------------------------------------------ numbers

  function DigitChar(d: nat): char
    requires d < 10
  {
    "0123456789"[d]
  }

  /** `strconv.Itoa` on non-negative numbers. */
  function NatToString(n: nat): (r: string)
    ensures |r| >= 1 && forall i :: 0 <= i < |r| ==> '0' <= r[i] <= '9'
  {
    if n < 10 then [DigitChar(n)] else NatToString(n / 10) + [DigitChar(n % 10)]
  }

  /** `fmt.Sprintf("%d", n)`. */
  function IntToString(n: int): string
  {
    if n < 0 then "-" + NatToString(-n) else NatToString(n)
  }

  // ------------------------------------------------------------------- paths

  /** The part of `p` after its last `/`. */
  function LastElement(p: string): (r: string)
    ensures |r| <= |p| && r == p[|p| - |r|..] && '/' !in r
  {
    if p == [] || p[|p| - 1] == '/' then []
    else LastElement(p[..|p| - 1]) + [p[|p| - 1]]
  }

  /** `filepath.Base` on slash-separated paths. */
  function Base(p: string): string
  {
    if p == "" then "."
    else
      var q := TrimRightSet(p, {'/'});
      if q == "" then "/" else LastElement(q)
  }

  /** `filepath.Ext`: the suffix of the last element that starts at its last dot. */
  function Ext(p: string): (e: string)
    ensures |e| <= |p| && e == p[|p| - |e|..]
    ensures e == [] || e[0] == '.'
  {
    ExtBefore(p, |p|)
  }

  /** The suffix of `p` from its last dot before position `i`, unless a `/` comes first. */
  function ExtBefore(p: string, i: nat): (e: string)
    requires i <= |p|
    ensures |e| <= |p| && e == p[|p| - |e|..]
    ensures e == [] || e[0] == '.'
  {
    if i == 0 || p[i - 1] == '/' then ""
    else if p[i - 1] == '.' then p[i - 1..]
    else ExtBefore(p, i - 1)
  }

  /** `filepath.Join` of two parts, without the lexical clean-up Go applies. */
  function JoinPath(a: string, b: string): string
  {
    if a == "" then b else if b == "" then a else a + "/" + b
  }

  /** A character other than `/` extends the last element. */
  lemma LastElementSnoc(p: string, c: char)
    requires c != '/'
    ensures LastElement(p + [c]) == LastElement(p) + [c]
  {
    assert (p + [c])[..|p|] == p;
  }

  /** The last element of a path ending in `/name` is `name`. */
  lemma {:induction false} LastElementAfterSlash(pre: string, name: string)
    requires pre == [] || pre[|pre| - 1] == '/'
    requires '/' !in name
    ensures LastElement(pre + name) == name
    decreases |name|
  {
    if name == [] {
      assert pre + name == pre;
    } else {
      var init := name[..|name| - 1];
      var c := name[|name| - 1];
      assert name == init + [c];
      assert pre + name == (pre + init) + [c];
      LastElementAfterSlash(pre, init);
      LastElementSnoc(pre + init, c);
    }
  }

  /** The base of a directory joined with an entry name is that name. */
  lemma BaseOfJoin(dir: string, name: string)
    requires name != [] && '/' !in name
    ensures Base(JoinPath(dir, name)) == name
  {
    var q := JoinPath(dir, name);
    var pre := if dir == "" then "" else dir + "/";
    assert q == pre + name;
    assert q[|q| - 1] == name[|name| - 1];
    assert TrimRightSet(q, {'/'}) == q;
    LastElementAfterSlash(pre, name);
  }

  /** Joining one more part adds the separator and the part at the end. */
  lemma {:induction false} JoinSnoc(parts: seq<string>, x: string, sep: string)
    requires parts != []
    ensures Join(parts + [x], sep) == Join(parts, sep) + sep + x
    decreases |parts|
  {
    if |parts| > 1 {
      JoinSnoc(parts[1..], x, sep);
      assert (parts + [x])[1..] == parts[1..] + [x];
    }
  }
}
