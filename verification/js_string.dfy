/**
 * The JavaScript string operations the dependency parser relies on,
 * for the argument kinds it uses them with: `split` and `includes` with a
 * string, `startsWith`, `replace` of a one-character string (first
 * occurrence only), `replace` with a global one-character pattern, and
 * `trim`. A JavaScript string is modelled as a sequence of code points.
 */
module JsString {

  /** The code points ECMAScript counts as WhiteSpace or LineTerminator: what `trim` removes. */
  predicate IsWhiteSpace(c: char) {
    || c == '\t' || c == '\U{000B}' || c == '\U{000C}' || c == ' '
    || c == '\U{00A0}' || c == '\U{FEFF}' || c == '\U{1680}'
    || ('\U{2000}' <= c <= '\U{200A}')
    || c == '\U{202F}' || c == '\U{205F}' || c == '\U{3000}'
    || c == '\n' || c == '\r' || c == '\U{2028}' || c == '\U{2029}'
  }

  /** No character of `s` is `c`. */
  predicate Excludes(s: string, c: char) {
    forall k :: 0 <= k < |s| ==> s[k] != c
  }

  /** `s.startsWith(prefix)` */
  predicate StartsWith(s: string, prefix: string) {
    |prefix| <= |s| && s[..|prefix|] == prefix
  }

  /** `sub` occurs in `s` at position `i`. */
  predicate OccursAt(s: string, sub: string, i: nat) {
    i + |sub| <= |s| && s[i..i + |sub|] == sub
  }

  /** `sub` occurs in `s` at position `i` or later. */
  predicate IncludesFrom(s: string, sub: string, i: nat)
    decreases |s| - i
  {
    i <= |s| && (OccursAt(s, sub, i) || IncludesFrom(s, sub, i + 1))
  }

  /** `s.includes(sub)`: `sub` occurs somewhere in `s`. */
  predicate Includes(s: string, sub: string) {
    IncludesFrom(s, sub, 0)
  }

  lemma {:induction false} IncludesFromShift(s: string, sub: string, i: nat)
    requires 1 <= i
    ensures IncludesFrom(s, sub, i) <==> |s| > 0 && IncludesFrom(s[1..], sub, i - 1)
    decreases |s| - i
  {
    if i <= |s| {
      IncludesFromShift(s, sub, i + 1);
      if OccursAt(s, sub, i) {
        assert s[1..][i - 1..i - 1 + |sub|] == s[i..i + |sub|];
      }
      if OccursAt(s[1..], sub, i - 1) {
        assert s[1..][i - 1..i - 1 + |sub|] == s[i..i + |sub|];
      }
    }
  }

  /** `sub` is included in `s` when `s` starts with it or its tail includes it. */
  lemma IncludesUnfold(s: string, sub: string)
    ensures Includes(s, sub) <==> StartsWith(s, sub) || (|s| > 0 && Includes(s[1..], sub))
  {
    IncludesFromShift(s, sub, 1);
  }

  /**
   * `s.split(sep)` for a non-empty separator: the pieces between the
   * occurrences of `sep`, found left to right without overlap. There is
   * always at least one piece.
   */
  function Split(s: string, sep: string): (r: seq<string>)
    requires |sep| > 0
    ensures |r| >= 1
    decreases |s|
  {
    if |s| < |sep| then [s]
    else if StartsWith(s, sep) then [""] + Split(s[|sep|..], sep)
    else
      var rest := Split(s[1..], sep);
      [[s[0]] + rest[0]] + rest[1..]
  }

  /** `parts.join(sep)`: the inverse of Split. */
  function Join(parts: seq<string>, sep: string): string {
    if |parts| == 0 then ""
    else if |parts| == 1 then parts[0]
    else parts[0] + sep + Join(parts[1..], sep)
  }

  /** Prepending a character to the first part prepends it to the joined text. */
  lemma JoinPrependFirst(c: char, parts: seq<string>, sep: string)
    requires |parts| >= 1
    ensures Join([[c] + parts[0]] + parts[1..], sep) == [c] + Join(parts, sep)
  {
    var ps := [[c] + parts[0]] + parts[1..];
    assert ps[1..] == parts[1..];
  }

  /** Splitting loses nothing: joining the pieces back gives the original text. */
  lemma {:induction false} JoinSplit(s: string, sep: string)
    requires |sep| > 0
    ensures Join(Split(s, sep), sep) == s
    decreases |s|
  {
    if |s| < |sep| {
    } else if StartsWith(s, sep) {
      var rest := Split(s[|sep|..], sep);
      JoinSplit(s[|sep|..], sep);
      assert ([""] + rest)[1..] == rest;
      assert s == sep + s[|sep|..];
    } else {
      var rest := Split(s[1..], sep);
      JoinSplit(s[1..], sep);
      JoinPrependFirst(s[0], rest, sep);
      assert s == [s[0]] + s[1..];
    }
  }

  /** The first piece of a split is a prefix of the text. */
  lemma {:induction false} SplitFirstIsPrefix(s: string, sep: string)
    requires |sep| > 0
    ensures Split(s, sep)[0] <= s
    decreases |s|
  {
    if |s| >= |sep| && !StartsWith(s, sep) {
      SplitFirstIsPrefix(s[1..], sep);
    }
  }

  /** No piece produced by Split contains the separator. */
  lemma {:induction false} SplitPiecesExcludeSep(s: string, sep: string)
    requires |sep| > 0
    ensures forall k :: 0 <= k < |Split(s, sep)| ==> !Includes(Split(s, sep)[k], sep)
    decreases |s|
  {
    if |s| < |sep| {
      ShorterExcludes(s, sep);
    } else if StartsWith(s, sep) {
      SplitPiecesExcludeSep(s[|sep|..], sep);
      var rest := Split(s[|sep|..], sep);
      assert Split(s, sep) == [""] + rest;
      ShorterExcludes("", sep);
      forall k | 0 <= k < |Split(s, sep)| ensures !Includes(Split(s, sep)[k], sep) {
        if k > 0 { assert Split(s, sep)[k] == rest[k - 1]; }
      }
    } else {
      SplitPiecesExcludeSep(s[1..], sep);
      var rest := Split(s[1..], sep);
      var first := [s[0]] + rest[0];
      SplitFirstIsPrefix(s[1..], sep);
      assert first <= s;
      assert !StartsWith(first, sep);
      assert first[1..] == rest[0];
      IncludesUnfold(first, sep);
      assert !Includes(first, sep);
      assert Split(s, sep) == [first] + rest[1..];
      forall k | 0 <= k < |Split(s, sep)| ensures !Includes(Split(s, sep)[k], sep) {
        if k > 0 { assert Split(s, sep)[k] == rest[k]; }
      }
    }
  }

  /** A text shorter than `sub` cannot include it. */
  lemma {:induction false} ShorterExcludes(s: string, sub: string)
    requires |s| < |sub|
    ensures !Includes(s, sub)
    decreases |s|
  {
    IncludesUnfold(s, sub);
    if |s| > 0 {
      ShorterExcludes(s[1..], sub);
    }
  }

  /** Split yields a single piece exactly when the separator does not occur in the text. */
  lemma {:induction false} SplitSingleIffAbsent(s: string, sep: string)
    requires |sep| > 0
    ensures |Split(s, sep)| == 1 <==> !Includes(s, sep)
    decreases |s|
  {
    if |s| < |sep| {
      ShorterExcludes(s, sep);
    } else if StartsWith(s, sep) {
      IncludesUnfold(s, sep);
    } else {
      IncludesUnfold(s, sep);
      SplitSingleIffAbsent(s[1..], sep);
    }
  }

  /** For a one-character pattern, `includes` is membership. */
  lemma {:induction false} IncludesChar(s: string, c: char)
    ensures Includes(s, [c]) <==> !Excludes(s, c)
    decreases |s|
  {
    IncludesUnfold(s, [c]);
    if |s| > 0 {
      IncludesChar(s[1..], c);
      if s[0] == c {
        assert s[..1] == [c];
        assert !Excludes(s, c);
      } else if !Excludes(s[1..], c) {
        var k :| 0 <= k < |s[1..]| && s[1..][k] == c;
        assert s[k + 1] == c;
      } else {
        assert s[..1] != [c];
        assert Excludes(s, c);
      }
    }
  }

  /** `s.indexOf(c)`: the position of the first `c`, or -1 when there is none. */
  function IndexOf(s: string, c: char): (i: int)
    ensures -1 <= i < |s|
    ensures i == -1 <==> Excludes(s, c)
    ensures 0 <= i ==> s[i] == c && Excludes(s[..i], c)
    decreases |s|
  {
    if |s| == 0 then -1
    else if s[0] == c then 0
    else
      var j := IndexOf(s[1..], c);
      if j < 0 then -1 else j + 1
  }

  /** `s.replace(c, '')` with a one-character string pattern: only the first `c` is removed. */
  function DeleteFirst(s: string, c: char): (r: string)
    ensures Excludes(s, c) ==> r == s
  {
    var i := IndexOf(s, c);
    if i < 0 then s else s[..i] + s[i + 1..]
  }

  /**
   * DeleteFirst removes the first `c` when there is one: the text before
   * it is kept, and so is everything after it.
   */
  lemma DeleteFirstRemovesFirst(s: string, c: char)
    ensures !Excludes(s, c) ==>
              exists i :: 0 <= i < |s| && s[i] == c && Excludes(s[..i], c) && DeleteFirst(s, c) == s[..i] + s[i + 1..]
  {
    var i := IndexOf(s, c);
    if 0 <= i {
      assert s[i] == c && Excludes(s[..i], c) && DeleteFirst(s, c) == s[..i] + s[i + 1..];
    }
  }

  /** Taking one `c` out of the middle of a text takes it out of the text's multiset. */
  lemma MultisetAround(before: string, c: char, after: string)
    ensures multiset(before + [c] + after) - multiset{c} == multiset(before + after)
  {
    assert multiset(before + [c] + after) == multiset(before + after) + multiset{c};
  }

  /** DeleteFirst removes one `c` at most, and nothing else. */
  lemma DeleteFirstKeepsOthers(s: string, c: char)
    ensures multiset(DeleteFirst(s, c)) == multiset(s) - multiset{c}
  {
    var i := IndexOf(s, c);
    if 0 <= i {
      var before, after := s[..i], s[i + 1..];
      assert s == before + [c] + after;
      assert DeleteFirst(s, c) == before + after;
      MultisetAround(before, c, after);
    } else {
      assert c !in multiset(s);
    }
  }

  /** `s.replace(/c/g, '')`: every `c` is removed and the rest keeps its order. */
  function DeleteAll(s: string, c: char): (r: string)
    ensures Excludes(r, c)
    decreases |s|
  {
    if |s| == 0 then ""
    else if s[0] == c then DeleteAll(s[1..], c)
    else [s[0]] + DeleteAll(s[1..], c)
  }

  /** DeleteAll keeps every other character, with its multiplicity. */
  lemma {:induction false} DeleteAllKeepsOthers(s: string, c: char)
    ensures multiset(DeleteAll(s, c)) == multiset(s)[c := 0]
    decreases |s|
  {
    if |s| > 0 {
      DeleteAllKeepsOthers(s[1..], c);
      assert s == [s[0]] + s[1..];
    }
  }

  /** `s.trimStart()`: a suffix of `s` that does not start with white space. */
  function TrimStart(s: string): (r: string)
    ensures |r| <= |s| && r == s[|s| - |r|..]
    ensures r == [] || !IsWhiteSpace(r[0])
    decreases |s|
  {
    if |s| > 0 && IsWhiteSpace(s[0]) then TrimStart(s[1..]) else s
  }

  /** TrimStart cuts away nothing but white space. */
  lemma {:induction false} TrimStartCutsWhiteSpace(s: string)
    ensures AllWhiteSpace(s[..|s| - |TrimStart(s)|])
    decreases |s|
  {
    if |s| > 0 && IsWhiteSpace(s[0]) {
      var t := s[1..];
      TrimStartCutsWhiteSpace(t);
      var n := |s| - |TrimStart(s)|;
      assert n == |t| - |TrimStart(t)| + 1;
      forall k | 0 <= k < n
        ensures IsWhiteSpace(s[..n][k])
      {
        if k > 0 {
          assert s[..n][k] == t[..n - 1][k - 1];
        }
      }
    }
  }

  /** `s.trimEnd()`: a prefix of `s` that does not end with white space. */
  function TrimEnd(s: string): (r: string)
    ensures |r| <= |s| && r == s[..|r|]
    ensures r == [] || !IsWhiteSpace(r[|r| - 1])
    decreases |s|
  {
    if |s| > 0 && IsWhiteSpace(s[|s| - 1]) then TrimEnd(s[..|s| - 1]) else s
  }

  /** TrimEnd cuts away nothing but white space. */
  lemma {:induction false} TrimEndCutsWhiteSpace(s: string)
    ensures AllWhiteSpace(s[|TrimEnd(s)|..])
    decreases |s|
  {
    if |s| > 0 && IsWhiteSpace(s[|s| - 1]) {
      var init := s[..|s| - 1];
      TrimEndCutsWhiteSpace(init);
      assert s[|TrimEnd(s)|..] == init[|TrimEnd(init)|..] + [s[|s| - 1]];
    }
  }

  /** A label with no white space at either end. */
  predicate Trimmed(s: string) {
    s == [] || (!IsWhiteSpace(s[0]) && !IsWhiteSpace(s[|s| - 1]))
  }

  predicate AllWhiteSpace(s: string) {
    forall k :: 0 <= k < |s| ==> IsWhiteSpace(s[k])
  }

  /** `s.trim()`: white space cut away at both ends. */
  function Trim(s: string): (r: string)
    ensures Trimmed(r)
  {
    TrimEnd(TrimStart(s))
  }

  /**
   * Trim returns a slice of its argument and cuts away nothing but white
   * space on either side of it.
   */
  lemma TrimIsSlice(s: string)
    ensures exists i :: 0 <= i <= |s| && Trim(s) <= s[i..] && AllWhiteSpace(s[..i]) && AllWhiteSpace(s[i + |Trim(s)|..])
  {
    var t := TrimStart(s);
    var r := TrimEnd(t);
    var i := |s| - |t|;
    TrimStartCutsWhiteSpace(s);
    TrimEndCutsWhiteSpace(t);
    assert t == s[i..];
    assert r <= s[i..];
    assert s[i + |r|..] == t[|r|..];
  }

  /** A character absent from `s` is absent from `Trim(s)`. */
  lemma TrimKeepsExclusion(s: string, c: char)
    requires Excludes(s, c)
    ensures Excludes(Trim(s), c)
  {
    var t := TrimStart(s);
    var i := |s| - |t|;
    assert forall k :: 0 <= k < |Trim(s)| ==> Trim(s)[k] == s[i + k];
  }
}
