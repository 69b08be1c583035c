/** The two string primitives the local-path matcher relies on: the last
    segment of a directory path (what DirectoryInfo.Name yields for an
    ordinary path) and ordinal case-insensitive equality, restricted to the
    ASCII letters. */
module PathText {

  /** Both separators that Windows paths accept. */
  predicate IsSeparator(c: char) {
    c == '\\' || c == '/'
  }

  predicate IsLower(c: char) {
    'a' <= c <= 'z'
  }

  /** Case folding of one character, as an ordinal case-insensitive comparison
      does it: lower-case ASCII letters become upper-case, everything else is
      left alone. */
  function FoldChar(c: char): char {
    if IsLower(c) then (c as int - 32) as char else c
  }

  /** Two characters fold alike exactly when they are equal or are the two
      cases of one ASCII letter. */
  lemma FoldCharSame(x: char, y: char)
    ensures FoldChar(x) == FoldChar(y) <==>
      x == y || (IsLower(x) && y as int == x as int - 32) || (IsLower(y) && x as int == y as int - 32)
  {
  }

  /** The case-folded form of a whole string. */
  function Fold(s: string): (r: string)
    ensures |r| == |s|
    ensures forall i :: 0 <= i < |s| ==> r[i] == FoldChar(s[i])
    ensures forall i :: 0 <= i < |r| ==> !IsLower(r[i])
  {
    if s == [] then [] else [FoldChar(s[0])] + Fold(s[1..])
  }

  lemma FoldIdempotent(s: string)
    ensures Fold(Fold(s)) == Fold(s)
  {
  }

  lemma FoldAppend(a: string, b: string)
    ensures Fold(a + b) == Fold(a) + Fold(b)
  {
  }

  /** Ordinal case-insensitive equality: equal lengths and, position by
      position, characters that fold to the same character. */
  predicate EqualsIgnoreCase(a: string, b: string) {
    |a| == |b| && forall i :: 0 <= i < |a| ==> FoldChar(a[i]) == FoldChar(b[i])
  }

  lemma EqualsIgnoreCaseIsFoldEquality(a: string, b: string)
    ensures EqualsIgnoreCase(a, b) <==> Fold(a) == Fold(b)
  {
    if Fold(a) == Fold(b) {
      forall i | 0 <= i < |a|
        ensures FoldChar(a[i]) == FoldChar(b[i])
      {
        assert Fold(a)[i] == Fold(b)[i];
      }
    }
  }

  /** Case-insensitive equality is an equivalence, so a string may be
      replaced by any case variant of itself on either side. */
  lemma EqualsIgnoreCaseIsEquivalence(a: string, b: string, c: string)
    ensures EqualsIgnoreCase(a, a)
    ensures EqualsIgnoreCase(a, b) ==> EqualsIgnoreCase(b, a)
    ensures EqualsIgnoreCase(a, b) && EqualsIgnoreCase(b, c) ==> EqualsIgnoreCase(a, c)
  {
  }

  /** Concatenating case variants gives a case variant. */
  lemma EqualsIgnoreCaseAppend(a: string, a': string, b: string, b': string)
    requires EqualsIgnoreCase(a, a') && EqualsIgnoreCase(b, b')
    ensures EqualsIgnoreCase(a + b, a' + b')
  {
    EqualsIgnoreCaseIsFoldEquality(a, a');
    EqualsIgnoreCaseIsFoldEquality(b, b');
    FoldAppend(a, b);
    FoldAppend(a', b');
    EqualsIgnoreCaseIsFoldEquality(a + b, a' + b');
  }

  /** The final directory-name segment of a path: everything after the last
      separator, or the whole path when it has none. */
  function LastSegment(path: string): (name: string)
    ensures |name| <= |path| && name == path[|path| - |name|..]
    ensures forall i :: 0 <= i < |name| ==> !IsSeparator(name[i])
    ensures |name| < |path| ==> IsSeparator(path[|path| - |name| - 1])
  {
    if path == [] || IsSeparator(path[|path| - 1]) then []
    else LastSegment(path[..|path| - 1]) + [path[|path| - 1]]
  }

  /** A directory name placed under any parent directory is read back as
      the last segment. */
  lemma {:induction false} LastSegmentOfChild(parent: string, sep: char, name: string)
    requires IsSeparator(sep)
    requires forall i :: 0 <= i < |name| ==> !IsSeparator(name[i])
    ensures LastSegment(parent + [sep] + name) == name
  {
    var path := parent + [sep] + name;
    if name != [] {
      var init := name[..|name| - 1];
      assert path[..|path| - 1] == parent + [sep] + init;
      LastSegmentOfChild(parent, sep, init);
      assert name == init + [name[|name| - 1]];
    }
  }
}
