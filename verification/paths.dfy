/**
  The parts of Go's `path/filepath` and `strings` the auto-naming code
  uses, on a single-separator path syntax (the Windows backslash). Volume
  names and the lexical clean-up of `.`/`..` elements are not modelled.
 */
module PathNames {

  /** The host's path separator. */
  const Sep: char := '\\'

  predicate IsSep(c: char)
  {
    c == Sep
  }

  /** No character of `s` is a separator. */
  predicate SepFree(s: string)
  {
    Sep !in s
  }

  /** No character of `s` is a dot. */
  predicate DotFree(s: string)
  {
    '.' !in s
  }

  /** `s` contains at least one character that is not a separator. */
  predicate HasNonSep(s: string)
  {
    exists i :: 0 <= i < |s| && !IsSep(s[i])
  }

  /** `strings.HasSuffix`. */
  predicate HasSuffix(s: string, suffix: string)
  {
    |suffix| <= |s| && s[|s| - |suffix|..] == suffix
  }

  /** `strings.TrimSuffix`: removes `suffix` once if present, otherwise changes nothing. */
  function TrimSuffix(s: string, suffix: string): (r: string)
    ensures HasSuffix(s, suffix) ==> r + suffix == s
    ensures !HasSuffix(s, suffix) ==> r == s
  {
    if HasSuffix(s, suffix) then s[..|s| - |suffix|] else s
  }

  /** Index of the last separator of `s`, or -1 when there is none. */
  function LastSep(s: string): (i: int)
    ensures -1 <= i < |s|
    ensures 0 <= i ==> IsSep(s[i])
    ensures forall j :: i < j < |s| ==> !IsSep(s[j])
  {
    if |s| == 0 then -1
    else if IsSep(s[|s| - 1]) then |s| - 1
    else LastSep(s[..|s| - 1])
  }

  /** `s` with every trailing separator removed. */
  function TrimTrailingSeps(s: string): (r: string)
    ensures |r| <= |s| && r == s[..|r|]
    ensures r == "" || !IsSep(r[|r| - 1])
    ensures forall j :: |r| <= j < |s| ==> IsSep(s[j])
  {
    if |s| > 0 && IsSep(s[|s| - 1]) then TrimTrailingSeps(s[..|s| - 1]) else s
  }

  /**
    `filepath.Base`: the last element of `p`, trailing separators ignored;
    "." for the empty path and a lone separator for a path made only of
    separators.
   */
  function Base(p: string): (b: string)
    ensures b != ""
    ensures p == "" ==> b == "."
    ensures HasNonSep(p) ==> SepFree(b)
    ensures p != "" && !HasNonSep(p) ==> b == [Sep]
    ensures HasNonSep(p) ==>
              var q := TrimTrailingSeps(p);
              && HasSuffix(q, b)
              && (|b| == |q| || IsSep(q[|q| - |b| - 1]))
  {
    if p == "" then "."
    else
      var q := TrimTrailingSeps(p);
      if q == "" then [Sep] else q[LastSep(q) + 1..]
  }

  /**
    `filepath.Ext`: the suffix of `p` that starts at the last dot of its
    final element, or "" when that element has no dot.
   */
  function Ext(p: string): (e: string)
    ensures HasSuffix(p, e)
  {
    if |p| == 0 || IsSep(p[|p| - 1]) then ""
    else if p[|p| - 1] == '.' then "."
    else
      var e := Ext(p[..|p| - 1]);
      if e == "" then "" else e + [p[|p| - 1]]
  }

  /** An extension is empty, or a dot followed by text with no dot and no separator. */
  predicate ExtensionShaped(e: string)
  {
    e == "" || (e[0] == '.' && SepFree(e) && DotFree(e[1..]))
  }

  lemma {:induction false} ExtIsExtensionShaped(p: string)
    ensures ExtensionShaped(Ext(p))
    decreases |p|
  {
    if |p| == 0 || IsSep(p[|p| - 1]) {
    } else if p[|p| - 1] == '.' {
    } else {
      var c := p[|p| - 1];
      var e := Ext(p[..|p| - 1]);
      ExtIsExtensionShaped(p[..|p| - 1]);
      if e != "" {
        assert Ext(p) == e + [c];
        assert (e + [c])[1..] == e[1..] + [c];
      }
    }
  }

  /** The name without its extension. */
  function Stem(name: string): (s: string)
    ensures s + Ext(name) == name
  {
    TrimSuffix(name, Ext(name))
  }

  /**
    `filepath.Dir`: everything before the last separator, with trailing
    separators removed; "." when there is no separator and a lone
    separator when only separators precede it.
   */
  function Dir(p: string): (d: string)
    ensures d != ""
    ensures d == [Sep] || !IsSep(d[|d| - 1])
    ensures LastSep(p) < 0 ==> d == "."
    ensures 0 <= LastSep(p) && d != [Sep] ==>
              && |d| <= LastSep(p) && d == p[..|d|]
              && forall j :: |d| <= j <= LastSep(p) ==> IsSep(p[j])
    ensures 0 <= LastSep(p) && d == [Sep] ==> forall j :: 0 <= j <= LastSep(p) ==> IsSep(p[j])
  {
    var i := LastSep(p);
    if i < 0 then "."
    else
      var d := TrimTrailingSeps(p[..i]);
      if d == "" then [Sep] else d
  }

  /** `filepath.Join` of a directory and one element. */
  function Join(dir: string, name: string): (r: string)
    ensures dir == "" ==> r == name
    ensures dir != "" && name == "" ==> r == dir
    ensures dir == "." && name != "" ==> r == name
    ensures dir != "" && name != "" && dir != "." ==>
              && |dir| + |name| <= |r| <= |dir| + |name| + 1
              && r[..|dir|] == dir
              && HasSuffix(r, name)
              && IsSep(r[|r| - |name| - 1])
              && (|r| == |dir| + |name| <==> IsSep(dir[|dir| - 1]))
  {
    if dir == "" then name
    else if name == "" then dir
    else if dir == "." then name
    else if IsSep(dir[|dir| - 1]) then dir + name
    else dir + [Sep] + name
  }

  /** `LastSep` is the only index with its two defining properties. */
  lemma LastSepUnique(s: string, i: int)
    requires -1 <= i < |s|
    requires 0 <= i ==> IsSep(s[i])
    requires forall j :: i < j < |s| ==> !IsSep(s[j])
    ensures LastSep(s) == i
  {
  }

  /** A non-empty name without separators is its own base. */
  lemma BaseOfPlainName(name: string)
    requires name != "" && SepFree(name)
    ensures Base(name) == name
    ensures Dir(name) == "."
  {
    assert TrimTrailingSeps(name) == name;
    LastSepUnique(name, -1);
  }

  /**
    Joining a separator-free name onto the directory of any path gives a
    path whose directory is that directory and whose base is the name.
   */
  lemma {:induction false} DirJoinRoundTrip(p: string, name: string)
    requires name != "" && SepFree(name)
    ensures Dir(Join(Dir(p), name)) == Dir(p)
    ensures Base(Join(Dir(p), name)) == name
  {
    var d := Dir(p);
    var j := Join(d, name);
    if d == "." {
      assert j == name;
      BaseOfPlainName(name);
    } else if IsSep(d[|d| - 1]) {
      assert d == [Sep];
      assert j == [Sep] + name;
      LastSepUnique(j, 0);
      assert j[..0] == "";
      assert TrimTrailingSeps(j) == j;
      assert j[1..] == name;
    } else {
      assert j == d + [Sep] + name;
      LastSepUnique(j, |d|);
      assert j[..|d|] == d;
      assert TrimTrailingSeps(d) == d;
      assert TrimTrailingSeps(j) == j;
      assert j[|d| + 1..] == name;
    }
  }

  /** One more ordinary character extends a present extension. */
  lemma ExtStep(s: string, c: char)
    requires !IsSep(c) && c != '.'
    ensures Ext(s + [c]) == if Ext(s) == "" then "" else Ext(s) + [c]
  {
    var t := s + [c];
    assert t[..|t| - 1] == s;
  }

  /**
    Appending text free of dots and separators extends a present extension
    and leaves an absent one absent.
   */
  lemma {:induction false} ExtOfPlainTail(x: string, y: string)
    requires SepFree(y) && DotFree(y)
    ensures Ext(x + y) == if Ext(x) == "" then "" else Ext(x) + y
    decreases |y|
  {
    if y == [] {
      assert x + y == x;
    } else {
      var y' := y[..|y| - 1];
      var c := y[|y| - 1];
      assert y' + [c] == y;
      assert x + y == (x + y') + [c];
      assert SepFree(y') && DotFree(y') by {
        assert forall ch :: ch in y' ==> ch in y;
      }
      ExtOfPlainTail(x, y');
      ExtStep(x + y', c);
      if Ext(x) != "" {
        assert (Ext(x) + y') + [c] == Ext(x) + y;
      }
    }
  }

  /** A name ending in a dot has the extension ".". */
  lemma ExtAtDot(x: string)
    ensures Ext(x + ".") == "."
  {
    var t := x + ".";
    assert t[|t| - 1] == '.';
  }

  /** A dotted suffix with no further dot or separator is the extension of whatever it ends. */
  lemma {:induction false} ExtOfDottedSuffix(x: string, e: string)
    requires e != "" && e[0] == '.' && SepFree(e) && DotFree(e[1..])
    ensures Ext(x + e) == e
  {
    var tail := e[1..];
    assert e == "." + tail;
    assert SepFree(tail) by {
      assert forall ch :: ch in tail ==> ch in e;
    }
    ExtAtDot(x);
    ExtOfPlainTail(x + ".", tail);
    assert (x + ".") + tail == x + e;
  }

  /** Splitting a name that ends with a dotted suffix gives back its two parts. */
  lemma StemOfDottedSuffix(x: string, e: string)
    requires e != "" && e[0] == '.' && SepFree(e) && DotFree(e[1..])
    ensures Ext(x + e) == e
    ensures Stem(x + e) == x
  {
    ExtOfDottedSuffix(x, e);
    var s := Stem(x + e);
    assert |s| == |x|;
    assert s == (s + e)[..|x|] == (x + e)[..|x|] == x;
  }

  /** The extension of a name that has none is empty, so its stem is the whole name. */
  lemma StemWithoutExt(name: string)
    requires Ext(name) == ""
    ensures Stem(name) == name
  {
    assert name + "" == name;
  }
}
