/** The parts of Rust's `str` that the configuration code uses.  A string is a
    sequence of Unicode scalar values; positions count those, not bytes. */
module Text {
  import opened Sequences
  import opened Wrappers

  /** `char::is_whitespace`: the property White_Space of Unicode. */
  predicate Whitespace(c: char) {
    || '\U{9}' <= c <= '\U{D}'
    || c == ' '
    || c == '\U{85}'
    || c == '\U{A0}'
    || c == '\U{1680}'
    || '\U{2000}' <= c <= '\U{200A}'
    || '\U{2028}' <= c <= '\U{2029}'
    || c == '\U{202F}'
    || c == '\U{205F}'
    || c == '\U{3000}'
  }

  /** The position of the first character that satisfies `p`, else the length. */
  function Position(s: string, p: char -> bool): (i: nat)
    ensures i <= |s|
    ensures i < |s| ==> p(s[i])
    ensures forall j :: 0 <= j < i ==> !p(s[j])
  {
    if s == "" || p(s[0]) then 0 else Position(s[1..], p) + 1
  }

  function TrimStart(s: string): string {
    if s == "" || !Whitespace(s[0]) then s else TrimStart(s[1..])
  }

  function TrimEnd(s: string): string {
    if s == "" || !Whitespace(s[|s| - 1]) then s else TrimEnd(s[..|s| - 1])
  }

  function Trim(s: string): string {
    TrimEnd(TrimStart(s))
  }

  /** Nothing to trim. */
  predicate Trimmed(s: string) {
    s == "" || (!Whitespace(s[0]) && !Whitespace(s[|s| - 1]))
  }

  predicate Blank(s: string) {
    forall c :: c in s ==> Whitespace(c)
  }

  lemma {:induction false} TrimStartParts(s: string) returns (left: string)
    ensures Blank(left) && s == left + TrimStart(s)
    ensures TrimStart(s) == "" || !Whitespace(TrimStart(s)[0])
    decreases |s|
  {
    hide Whitespace;
    if s == "" || !Whitespace(s[0]) {
      left := "";
      assert s == left + s;
    } else {
      var more := TrimStartParts(s[1..]);
      left := [s[0]] + more;
      assert s == [s[0]] + s[1..];
      Regroup([s[0]], more, TrimStart(s[1..]));
    }
  }

  lemma {:induction false} TrimEndParts(s: string) returns (right: string)
    ensures Blank(right) && s == TrimEnd(s) + right
    ensures TrimEnd(s) == "" || !Whitespace(TrimEnd(s)[|TrimEnd(s)| - 1])
    decreases |s|
  {
    hide Whitespace;
    if s == "" || !Whitespace(s[|s| - 1]) {
      right := "";
      assert s == s + right;
    } else {
      var init, last := s[..|s| - 1], [s[|s| - 1]];
      var more := TrimEndParts(init);
      right := more + last;
      assert s == init + last && Blank(last);
      BlankAppend(more, last);
      hide Blank;
      Regroup(TrimEnd(init), more, last);
    }
  }

  /** A text is its trimmed part between whitespace. */
  lemma TrimParts(s: string) returns (left: string, right: string)
    ensures Blank(left) && Blank(right) && s == left + Trim(s) + right
    ensures Trimmed(Trim(s))
  {
    hide Whitespace, Blank, TrimStart, TrimEnd;
    left := TrimStartParts(s);
    right := TrimEndParts(TrimStart(s));
    var t := Trim(s);
    assert s == left + (t + right) == left + t + right;
    if t != "" { assert TrimStart(s)[0] == t[0]; }
  }

  lemma TrimIsTrimmed(s: string)
    ensures Trimmed(Trim(s))
    ensures Trimmed(s) ==> Trim(s) == s
    ensures Trim(Trim(s)) == Trim(s)
  {
    hide Whitespace, Blank, TrimStart, TrimEnd, Trimmed;
    var left, right := TrimParts(s);
    TrimmedIsFixed(Trim(s));
    if Trimmed(s) { TrimmedIsFixed(s); }
  }

  lemma TrimmedIsFixed(s: string)
    requires Trimmed(s)
    ensures Trim(s) == s
  {}

  /** Whitespace around a trimmed text does not matter. */
  lemma TrimOfPadded(left: string, s: string, right: string)
    requires Trimmed(s)
    requires Blank(left)
    requires Blank(right)
    ensures Trim(left + s + right) == s
  {
    hide Whitespace, Blank, TrimStart, TrimEnd;
    assert left + s + right == left + (s + right);
    TrimStartOfPadded(left, s + right);
    TrimmedStaysPut(s, right);
    TrimEndOfPadded(s, right);
  }

  lemma TrimIgnoresPadding(left: string, s: string, right: string)
    requires Blank(left) && Blank(right)
    ensures Trim(left + s + right) == Trim(s)
  {
    hide Whitespace, Blank, TrimStart, TrimEnd, Trim;
    var l, r := TrimParts(s);
    TrimIsTrimmed(s);
    BlankAppend(left, l);
    BlankAppend(r, right);
    assert left + s + right == (left + l) + Trim(s) + (r + right);
    TrimOfPadded(left + l, Trim(s), r + right);
  }

  lemma BlankAppend(a: string, b: string)
    requires Blank(a) && Blank(b)
    ensures Blank(a + b)
  {
  }

  lemma TrimmedStaysPut(s: string, right: string)
    requires Trimmed(s) && Blank(right)
    ensures TrimStart(s + right) == if s == "" then "" else s + right
    ensures TrimEnd(s) == s
  {
    hide Whitespace;
    if s == "" {
      TrimStartOfPadded(right, "");
      assert s + right == right + "";
    }
  }

  lemma {:induction false} TrimStartOfPadded(left: string, s: string)
    requires Blank(left)
    ensures TrimStart(left + s) == TrimStart(s)
    decreases |left|
  {
    if left == "" {
      assert left + s == s;
    } else {
      assert Whitespace(left[0]);
      assert (left + s)[1..] == left[1..] + s;
      TrimStartOfPadded(left[1..], s);
    }
  }

  lemma {:induction false} TrimEndOfPadded(s: string, right: string)
    requires Blank(right)
    ensures TrimEnd(s + right) == TrimEnd(s)
    decreases |right|
  {
    if right == "" {
      assert s + right == s;
    } else {
      assert Whitespace(right[|right| - 1]);
      assert (s + right)[..|s + right| - 1] == s + right[..|right| - 1];
      TrimEndOfPadded(s, right[..|right| - 1]);
    }
  }

  /** `split_once` at the first character that satisfies `p`. */
  function SplitOnce(s: string, p: char -> bool): (r: Option<(string, string)>)
    ensures r.None? <==> forall c :: c in s ==> !p(c)
  {
    var i := Position(s, p);
    if i < |s| then Some((s[..i], s[i + 1..])) else None
  }

  lemma SplitOnceAt(left: string, c: char, right: string, p: char -> bool)
    requires p(c) && forall x :: x in left ==> !p(x)
    ensures SplitOnce(left + [c] + right, p) == Some((left, right))
  {
    var s := left + [c] + right;
    var i := Position(s, p);
    assert s[|left|] == c;
    assert forall j :: 0 <= j < |left| ==> s[j] in left;
    assert s[..|left|] == left && s[|left| + 1..] == right;
  }

  predicate StartsWith(s: string, prefix: string) {
    prefix <= s
  }

  /** `split`: the parts between the separators. */
  function Split(s: string, separator: char): (parts: seq<string>)
    ensures parts != []
    decreases |s|
  {
    var i := Position(s, c => c == separator);
    if i < |s| then [s[..i]] + Split(s[i + 1..], separator) else [s]
  }

  lemma PositionAt(left: string, c: char, right: string, p: char -> bool)
    requires p(c) && forall i :: 0 <= i < |left| ==> !p(left[i])
    ensures Position(left + [c] + right, p) == |left|
  {
    var s := left + [c] + right;
    assert s[|left|] == c;
    assert forall i :: 0 <= i < |left| ==> s[i] == left[i];
  }

  lemma EqualsIsVisible()
    ensures !Whitespace('=')
  {
  }
}
