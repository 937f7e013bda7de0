/**
 * Which top-level module names the logger records from the script's import
 * lines: the tokens of an unindented `from`/`import` line up to `as` or a
 * second `import`, without the keywords, each cut before its first dot, and
 * each name once.
 */
module Imports {
  import opened Text

  /** The characters of `[a-zA-Z0-9_.]`. */
  predicate IsNameChar(c: char) {
    ('a' <= c <= 'z') || ('A' <= c <= 'Z') || ('0' <= c <= '9') || c == '_' || c == '.'
  }

  /** The length of the longest prefix of `s` made of name characters. */
  function NameRunLength(s: string): (n: nat)
    ensures n <= |s|
    ensures forall i :: 0 <= i < n ==> IsNameChar(s[i])
    ensures n == |s| || !IsNameChar(s[n])
  {
    if s == [] || !IsNameChar(s[0]) then 0 else 1 + NameRunLength(s[1..])
  }

  /** `re.findall("([a-zA-Z0-9_\.]+)+,?", l)`: the maximal runs of name characters of `l`, in order. */
  function Tokens(l: string): seq<string>
    decreases |l|
  {
    if l == [] then []
    else if !IsNameChar(l[0]) then Tokens(l[1..])
    else
      var n := NameRunLength(l);
      [l[..n]] + Tokens(l[n..])
  }

  /** The name characters of `s`, in order. */
  function NameChars(s: string): string
    decreases |s|
  {
    if s == [] then "" else (if IsNameChar(s[0]) then [s[0]] else "") + NameChars(s[1..])
  }

  lemma {:induction false} NameCharsPrefix(s: string, n: nat)
    requires n <= |s|
    requires forall i :: 0 <= i < n ==> IsNameChar(s[i])
    ensures NameChars(s) == s[..n] + NameChars(s[n..])
    decreases n
  {
    if n > 0 {
      NameCharsPrefix(s[1..], n - 1);
      assert s[1..][..n - 1] == s[1..n];
      assert s[1..][n - 1..] == s[n..];
    }
  }

  /**
   * Each token is a non-empty run of name characters, and the tokens put
   * together are exactly the name characters of the line, in order.
   */
  lemma TokensSpec(l: string)
    ensures forall t :: t in Tokens(l) ==> t != "" && forall i :: 0 <= i < |t| ==> IsNameChar(t[i])
    ensures Concat(Tokens(l)) == NameChars(l)
  {
    TokensAreNames(l);
    TokensCoverNames(l);
  }

  lemma {:induction false} TokensAreNames(l: string)
    ensures forall t :: t in Tokens(l) ==> t != "" && forall i :: 0 <= i < |t| ==> IsNameChar(t[i])
    decreases |l|
  {
    if l != [] {
      if !IsNameChar(l[0]) {
        TokensAreNames(l[1..]);
      } else {
        var n := NameRunLength(l);
        TokensAreNames(l[n..]);
        assert Tokens(l) == [l[..n]] + Tokens(l[n..]);
      }
    }
  }

  lemma {:induction false} TokensCoverNames(l: string)
    ensures Concat(Tokens(l)) == NameChars(l)
    decreases |l|
  {
    if l != [] {
      if !IsNameChar(l[0]) {
        TokensCoverNames(l[1..]);
      } else {
        var n := NameRunLength(l);
        TokensCoverNames(l[n..]);
        NameCharsPrefix(l, n);
        ConcatAppend([l[..n]], Tokens(l[n..]));
        assert Concat([l[..n]]) == l[..n] by {
          assert [l[..n]][..0] == [];
        }
      }
    }
  }

  /**
   * A run of name characters is one token: `findall` never splits a name,
   * so `"os"` is the single token `"os"`.
   */
  lemma TokensWord(w: string)
    requires w != [] && forall i :: 0 <= i < |w| ==> IsNameChar(w[i])
    ensures Tokens(w) == [w]
  {
    assert NameRunLength(w) == |w|;
    assert w[..|w|] == w && w[|w|..] == [];
  }

  /** A run of name characters followed by another character ends there, whatever follows. */
  lemma {:induction false} NameRunStops(a: string, r: string)
    requires NameRunLength(a) < |a| || (r != [] && !IsNameChar(r[0]))
    ensures NameRunLength(a + r) == NameRunLength(a)
    decreases |a|
  {
    if a != [] && IsNameChar(a[0]) {
      assert (a + r)[1..] == a[1..] + r;
      NameRunStops(a[1..], r);
    }
  }

  /**
   * A character outside `[a-zA-Z0-9_.]` separates tokens: the tokens of the
   * text around it are those of the text before it, then those after it.
   */
  lemma {:induction false} TokensSplit(a: string, c: char, b: string)
    requires !IsNameChar(c)
    ensures Tokens(a + [c] + b) == Tokens(a) + Tokens(b)
    decreases |a|
  {
    var s := a + [c] + b;
    if a == [] {
      assert s == [c] + b && s[1..] == b;
    } else if !IsNameChar(a[0]) {
      assert s[1..] == a[1..] + [c] + b;
      TokensSplit(a[1..], c, b);
    } else {
      var m := NameRunLength(a);
      NameRunStops(a, [c] + b);
      assert a + ([c] + b) == s;
      assert s[..m] == a[..m];
      assert s[m..] == a[m..] + [c] + b;
      TokensSplit(a[m..], c, b);
    }
  }

  /** Collection stops at `as`, or at `import` anywhere but in first place. */
  predicate IsStop(hits: seq<string>, i: nat)
    requires i < |hits|
  {
    hits[i] == "as" || (hits[i] == "import" && i > 0)
  }

  /** The index of the first stop token, or the number of tokens when there is none. */
  function StopIndex(hits: seq<string>): (s: nat)
    ensures s <= |hits|
    ensures forall i :: 0 <= i < s ==> !IsStop(hits, i)
    ensures s == |hits| || IsStop(hits, s)
  {
    StopFrom(hits, 0)
  }

  function StopFrom(hits: seq<string>, i: nat): (s: nat)
    requires i <= |hits|
    requires forall j :: 0 <= j < i ==> !IsStop(hits, j)
    ensures i <= s <= |hits|
    ensures forall j :: 0 <= j < s ==> !IsStop(hits, j)
    ensures s == |hits| || IsStop(hits, s)
    decreases |hits| - i
  {
    if i == |hits| || IsStop(hits, i) then i else StopFrom(hits, i + 1)
  }

  predicate IsKeyword(h: string) {
    h == "from" || h == "import"
  }

  /** The tokens that are not `from` or `import`, in order. */
  function Kept(hits: seq<string>): seq<string>
    decreases |hits|
  {
    if hits == [] then []
    else Kept(hits[..|hits| - 1]) + (if IsKeyword(hits[|hits| - 1]) then [] else [hits[|hits| - 1]])
  }

  /** The module tokens of one import line: the non-keyword tokens before the first stop. */
  function Collected(hits: seq<string>): seq<string> {
    Kept(hits[..StopIndex(hits)])
  }

  /** `Kept` drops the keywords and keeps everything else in order. */
  lemma {:induction false} KeptSpec(hits: seq<string>)
    ensures forall h :: h in Kept(hits) ==> h in hits && !IsKeyword(h)
    ensures forall h :: h in hits && !IsKeyword(h) ==> h in Kept(hits)
    decreases |hits|
  {
    if hits != [] {
      var init := hits[..|hits| - 1];
      KeptSpec(init);
      assert hits == init + [hits[|hits| - 1]];
    }
  }

  /**
   * The loop over the tokens of one import line: it appends every token
   * that is not a keyword and breaks at the first stop token.
   */
  method CollectModuleTokens(hits: seq<string>) returns (mymods: seq<string>)
    ensures mymods == Collected(hits)
  {
    mymods := [];
    var i := 0;
    while i < |hits|
      invariant 0 <= i <= |hits|
      invariant forall j :: 0 <= j < i ==> !IsStop(hits, j)
      invariant mymods == Kept(hits[..i])
    {
      var h := hits[i];
      if h == "as" {
        break;
      }
      if h == "import" && i > 0 {
        break;
      }
      if h != "from" && h != "import" {
        mymods := mymods + [h];
      }
      assert hits[..i + 1][..i] == hits[..i];
      i := i + 1;
    }
    assert i == StopIndex(hits) by {
      if i < StopIndex(hits) {
        assert IsStop(hits, i);
      }
    }
  }

  /** The collected tokens never include a keyword or `as`, and all come from the line. */
  lemma CollectedSpec(hits: seq<string>)
    ensures forall h :: h in Collected(hits) ==> h in hits && !IsKeyword(h) && h != "as"
  {
    var s := StopIndex(hits);
    KeptSpec(hits[..s]);
    forall h | h in Collected(hits) ensures h in hits && h != "as" {
      var i :| 0 <= i < s && hits[..s][i] == h;
      assert !IsStop(hits, i);
    }
  }

  /** Only lines that begin, unindented, with `from` or `import` are examined. */
  predicate IsImportLine(l: string) {
    StartsWith(l, "from") || StartsWith(l, "import")
  }

  function TopLevel(mymods: seq<string>): seq<string> {
    seq(|mymods|, i requires 0 <= i < |mymods| => BeforeDot(mymods[i]))
  }

  /** The top-level names one line contributes, before de-duplication. */
  function LineNames(l: string): seq<string> {
    if IsImportLine(l) then TopLevel(Collected(Tokens(l))) else []
  }

  /** The top-level names of the whole script, line by line, before de-duplication. */
  function ImportNames(lines: seq<string>): seq<string>
    decreases |lines|
  {
    if lines == [] then [] else ImportNames(lines[..|lines| - 1]) + LineNames(lines[|lines| - 1])
  }

  /** The names of `names` that are not in `seen`, each once, in order of first appearance. */
  function NewNames(names: seq<string>, seen: set<string>): seq<string>
    decreases |names|
  {
    if names == [] then []
    else
      var prev := NewNames(names[..|names| - 1], seen);
      var n := names[|names| - 1];
      if n in seen || n in prev then prev else prev + [n]
  }

  predicate Distinct(s: seq<string>) {
    forall i, j :: 0 <= i < j < |s| ==> s[i] != s[j]
  }

  /**
   * De-duplication records every name that was not already known exactly
   * once, and nothing else.
   */
  lemma {:induction false} NewNamesSpec(names: seq<string>, seen: set<string>)
    ensures Distinct(NewNames(names, seen))
    ensures forall n :: n in NewNames(names, seen) <==> n in names && n !in seen
    decreases |names|
  {
    if names != [] {
      var init := names[..|names| - 1];
      NewNamesSpec(init, seen);
      assert names == init + [names[|names| - 1]];
    }
  }

  /** One more name is recorded exactly when it is neither known nor already recorded. */
  lemma NewNamesSnoc(names: seq<string>, n: string, seen: set<string>)
    ensures NewNames(names + [n], seen) ==
      if n in seen || n in NewNames(names, seen) then NewNames(names, seen) else NewNames(names, seen) + [n]
  {
    assert (names + [n])[..|names|] == names;
  }

  /** The names of one more line follow those of the lines before it. */
  lemma ImportNamesSnoc(lines: seq<string>, i: nat)
    requires i < |lines|
    ensures ImportNames(lines[..i + 1]) == ImportNames(lines[..i]) + LineNames(lines[i])
  {
    assert lines[..i + 1][..i] == lines[..i];
  }
}
