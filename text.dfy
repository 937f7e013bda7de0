/**
 * The handful of Python `str` operations the logger relies on: `lstrip`,
 * `strip`, `startswith`, `sep.join`, `''.join` and `split('.')[0]`.
 * Whitespace is the ASCII set of Python 2's byte strings.
 */
module Text {

  /** Python's whitespace: space, tab, line feed, carriage return, vertical tab, form feed. */
  predicate IsSpace(c: char) {
    c == ' ' || c == '\t' || c == '\n' || c == '\r' || c as int == 11 || c as int == 12
  }

  /** `s.lstrip()`: the suffix of `s` left once its leading whitespace is dropped. */
  function LStrip(s: string): string
  {
    if s != [] && IsSpace(s[0]) then LStrip(s[1..]) else s
  }

  /** `s.rstrip()`: the prefix of `s` left once its trailing whitespace is dropped. */
  function RStrip(s: string): string
  {
    if s != [] && IsSpace(s[|s| - 1]) then RStrip(s[..|s| - 1]) else s
  }

  /** `s.strip()`: a slice of `s` that neither starts nor ends with whitespace. */
  function Strip(s: string): string
  {
    RStrip(LStrip(s))
  }

  /**
   * `LStrip(s)` is the suffix of `s` obtained by dropping whitespace only,
   * and as much of it as there is.
   */
  lemma {:induction false} LStripSpec(s: string)
    ensures |LStrip(s)| <= |s| && LStrip(s) == s[|s| - |LStrip(s)|..]
    ensures forall i :: 0 <= i < |s| - |LStrip(s)| ==> IsSpace(s[i])
    ensures LStrip(s) == [] || !IsSpace(LStrip(s)[0])
    decreases |s|
  {
    if s != [] && IsSpace(s[0]) {
      LStripSpec(s[1..]);
    }
  }

  /** `RStrip(s)` is the prefix of `s` obtained by dropping trailing whitespace, all of it. */
  lemma {:induction false} RStripSpec(s: string)
    ensures |RStrip(s)| <= |s| && RStrip(s) == s[..|RStrip(s)|]
    ensures forall i :: |RStrip(s)| <= i < |s| ==> IsSpace(s[i])
    ensures RStrip(s) == [] || !IsSpace(RStrip(s)[|RStrip(s)| - 1])
    decreases |s|
  {
    if s != [] && IsSpace(s[|s| - 1]) {
      RStripSpec(s[..|s| - 1]);
    }
  }

  /** `Strip(s)` is a slice of `s` that neither starts nor ends with whitespace. */
  lemma StripSpec(s: string)
    ensures |LStrip(s)| <= |s| && |Strip(s)| <= |LStrip(s)|
    ensures |s| - |LStrip(s)| + |Strip(s)| <= |s|
    ensures Strip(s) == s[|s| - |LStrip(s)|..|s| - |LStrip(s)| + |Strip(s)|]
    ensures Strip(s) == [] || (!IsSpace(Strip(s)[0]) && !IsSpace(Strip(s)[|Strip(s)| - 1]))
  {
    var t := LStrip(s);
    LStripSpec(s);
    RStripSpec(t);
    var i := |s| - |t|;
    assert Strip(s) == s[i..i + |Strip(s)|];
  }

  /** `s.startswith(p)`. */
  predicate StartsWith(s: string, p: string) {
    |p| <= |s| && s[..|p|] == p
  }

  /** `sep.join(parts)`. */
  function Join(sep: string, parts: seq<string>): string
    decreases |parts|
  {
    if |parts| == 0 then ""
    else if |parts| == 1 then parts[0]
    else Join(sep, parts[..|parts| - 1]) + sep + parts[|parts| - 1]
  }

  /** `''.join(parts)`. */
  function Concat(parts: seq<string>): string
    decreases |parts|
  {
    if parts == [] then "" else Concat(parts[..|parts| - 1]) + parts[|parts| - 1]
  }

  /** `s.split('.')[0]`: the text before the first dot, or all of `s` when it has none. */
  function BeforeDot(s: string): (r: string)
    ensures |r| <= |s| && r == s[..|r|]
    ensures '.' !in r
    ensures |r| == |s| || s[|r|] == '.'
  {
    if s == [] || s[0] == '.' then "" else [s[0]] + BeforeDot(s[1..])
  }

  /** Appending one more part adds the separator and that part. */
  lemma JoinSnoc(sep: string, parts: seq<string>, x: string)
    requires parts != []
    ensures Join(sep, parts + [x]) == Join(sep, parts) + sep + x
  {
    assert (parts + [x])[..|parts|] == parts;
  }

  /** Joining two non-empty lists puts exactly one separator between the two joins. */
  lemma {:induction false} JoinAppend(sep: string, xs: seq<string>, ys: seq<string>)
    requires xs != [] && ys != []
    ensures Join(sep, xs + ys) == Join(sep, xs) + sep + Join(sep, ys)
    decreases |ys|
  {
    if |ys| == 1 {
      JoinSnoc(sep, xs, ys[0]);
    } else {
      var ys' := ys[..|ys| - 1];
      var y := ys[|ys| - 1];
      assert xs + ys == (xs + ys') + [y];
      JoinSnoc(sep, xs + ys', y);
      JoinAppend(sep, xs, ys');
      JoinSnoc(sep, ys', y);
    }
  }

  /** With a non-empty separator, a join is empty exactly when it joins no part or one empty part. */
  lemma JoinIsEmpty(sep: string, parts: seq<string>)
    requires sep != ""
    ensures Join(sep, parts) == "" <==> |parts| == 0 || (|parts| == 1 && parts[0] == "")
  {
    if |parts| >= 2 {
      assert |Join(sep, parts)| >= |sep|;
    }
  }

  /** Appending one more part appends its text. */
  lemma ConcatSnoc(xs: seq<string>, x: string)
    ensures Concat(xs + [x]) == Concat(xs) + x
  {
    assert (xs + [x])[..|xs|] == xs;
  }

  /** `''.join` distributes over concatenation of the lists. */
  lemma {:induction false} ConcatAppend(xs: seq<string>, ys: seq<string>)
    ensures Concat(xs + ys) == Concat(xs) + Concat(ys)
    decreases |ys|
  {
    if ys == [] {
      assert xs + ys == xs;
    } else {
      var ys' := ys[..|ys| - 1];
      var y := ys[|ys| - 1];
      assert xs + ys == (xs + ys') + [y];
      ConcatSnoc(xs + ys', y);
      ConcatAppend(xs, ys');
      ConcatSnoc(ys', y);
      assert ys' + [y] == ys;
    }
  }

  /** Each part preceded by the separator. */
  function Prefixed(sep: string, xs: seq<string>): seq<string> {
    seq(|xs|, i requires 0 <= i < |xs| => sep + xs[i])
  }

  /** Joining more parts onto a non-empty list appends each of them after a separator. */
  lemma {:induction false} JoinThen(sep: string, xs: seq<string>, ys: seq<string>)
    requires xs != []
    ensures Join(sep, xs + ys) == Join(sep, xs) + Concat(Prefixed(sep, ys))
    decreases |ys|
  {
    if ys == [] {
      assert xs + ys == xs;
    } else {
      var init := ys[..|ys| - 1];
      var y := ys[|ys| - 1];
      var j := Join(sep, xs);
      var c := Concat(Prefixed(sep, init));
      JoinThen(sep, xs, init);
      assert xs + ys == (xs + init) + [y];
      JoinSnoc(sep, xs + init, y);
      assert Prefixed(sep, ys) == Prefixed(sep, init) + [sep + y];
      ConcatSnoc(Prefixed(sep, init), sep + y);
      calc {
        Join(sep, xs + ys);
        (j + c) + sep + y;
        { assert (j + c) + sep + y == j + (c + (sep + y)); }
        j + (c + (sep + y));
      }
    }
  }
}
