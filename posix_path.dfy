/**
 * The parts of Python's `os.path` (the `posixpath` module) and of `str`
 * that the audio monitor relies on to name and filter files: `rfind`,
 * `basename`, `splitext`, `join` and the ASCII part of `lower`.
 * A string is a sequence of Unicode scalar values; '/' is the only separator.
 */
module PosixPath {

  /** Index of the last occurrence of `c` in `s`, or -1 when there is none
      (`str.rfind`): an index of `s` holding `c`, or -1. */
  function RFind(s: string, c: char): (i: int)
    ensures -1 <= i < |s|
    ensures 0 <= i ==> s[i] == c
  {
    if s == [] then -1
    else if s[|s| - 1] == c then |s| - 1
    else RFind(s[..|s| - 1], c)
  }

  /** No `c` comes after the one `RFind` finds, and -1 means `c` is absent. */
  lemma {:induction false} RFindIsLast(s: string, c: char)
    ensures forall j :: RFind(s, c) < j < |s| ==> s[j] != c
    ensures RFind(s, c) == -1 <==> c !in s
  {
    if s != [] && s[|s| - 1] != c {
      var init := s[..|s| - 1];
      RFindIsLast(init, c);
      forall j | RFind(s, c) < j < |s| ensures s[j] != c {
        if j < |s| - 1 {
          assert init[j] == s[j];
        }
      }
    }
  }

  /** The properties of `RFind` determine its result. */
  lemma RFindIs(s: string, c: char, i: int)
    requires -1 <= i < |s|
    requires 0 <= i ==> s[i] == c
    requires forall j :: i < j < |s| ==> s[j] != c
    ensures RFind(s, c) == i
  {
    RFindIsLast(s, c);
  }

  /** `os.path.basename`: everything after the last '/'. */
  function Basename(p: string): (b: string)
    ensures '/' !in b
  {
    RFindIsLast(p, '/');
    p[RFind(p, '/') + 1..]
  }

  /** The base name ends the path, and what comes before it is empty or
      ends in a '/'; as it holds no '/', it is the longest such suffix. */
  lemma BasenameIsLongestSuffix(p: string)
    ensures p == p[..RFind(p, '/') + 1] + Basename(p)
    ensures 0 <= RFind(p, '/') ==> p[RFind(p, '/')] == '/'
  {
  }

  /** A path without '/' is its own base name. */
  lemma BasenameOfName(name: string)
    requires '/' !in name
    ensures Basename(name) == name
  {
    RFindIs(name, '/', -1);
  }

  /** Whatever comes before a '/' has no bearing on the base name. */
  lemma {:induction false} BasenameAfterSlash(x: string, y: string)
    ensures Basename(x + "/" + y) == Basename(y)
  {
    var t := "/" + y;
    assert x + "/" + y == x + t;
    if '/' in y {
      RFindAppendWith(x, t, '/');
      RFindAppendWith("/", y, '/');
      assert (x + t)[|x| + |t| - |y| + RFind(y, '/') + 1..] == y[RFind(y, '/') + 1..];
    } else {
      assert t[1..] == y;
      RFindAppendLeading(x, t, '/');
      assert (x + t)[|x| + 1..] == y;
      RFindIs(y, '/', -1);
    }
  }

  /** A result of `os.path.splitext`: the root and the extension. */
  datatype Split = Split(root: string, ext: string)

  /** True when every character of `s` is a '.'. */
  predicate AllDots(s: string) {
    forall k :: 0 <= k < |s| ==> s[k] == '.'
  }

  /** The last component of `p` holds a '.' that comes after some character
      of that component other than '.'. */
  ghost predicate DottedLastComponent(p: string) {
    exists i, j :: RFind(p, '/') < j < i < |p| && p[j] != '.' && p[i] == '.'
  }

  /** The last component of `p` holds a character other than '.'. */
  ghost predicate NotOnlyDots(p: string) {
    exists j :: RFind(p, '/') < j < |p| && p[j] != '.'
  }

  /** `os.path.splitext` on POSIX: the extension runs from the last '.' of
      the last component to the end, unless every character of that
      component before the '.' is itself a '.' (so `.wav` and `..` have no
      extension); without an extension the root is the whole path.
      Root and extension put back together give the path, and an extension
      holds exactly one '.', its first character. */
  function SplitExt(p: string): (r: Split)
    ensures r.root + r.ext == p
    ensures r.ext == [] || (r.ext[0] == '.' && '.' !in r.ext[1..] && '/' !in r.ext)
  {
    var sep := RFind(p, '/');
    var dot := RFind(p, '.');
    if sep < dot && !AllDots(p[sep + 1..dot]) then
      LastDotOnwards(p);
      assert p[..dot] + p[dot..] == p;
      Split(p[..dot], p[dot..])
    else Split(p, [])
  }

  /** When the last '.' of `p` comes after its last '/', the text from that
      '.' on holds no other '.' and no '/'. */
  lemma LastDotOnwards(p: string)
    requires RFind(p, '/') < RFind(p, '.')
    ensures var e := p[RFind(p, '.')..]; e[0] == '.' && '.' !in e[1..] && '/' !in e
  {
    var dot := RFind(p, '.');
    var e := p[dot..];
    RFindIsLast(p, '.');
    RFindIsLast(p, '/');
    forall k | 0 <= k < |e[1..]| ensures e[1..][k] == p[dot + 1 + k] != '.' { }
    forall m | 0 <= m < |e| ensures e[m] == p[dot + m] != '/' { }
  }

  /** Cutting `p` at or after its last '/' leaves that '/' the last one of the prefix. */
  lemma RFindPrefix(p: string, c: char, n: int)
    requires RFind(p, c) < n <= |p|
    ensures RFind(p[..n], c) == RFind(p, c)
  {
    RFindIsLast(p, c);
    RFindIs(p[..n], c, RFind(p, c));
  }

  /** A path has an extension exactly when its last component holds a '.'
      after a character other than '.', and then the last component of the
      root is not made of dots only: leading dots never start an extension. */
  lemma SplitExtFindsExtension(p: string)
    ensures SplitExt(p).ext != [] <==> DottedLastComponent(p)
    ensures SplitExt(p).ext != [] ==> NotOnlyDots(SplitExt(p).root)
  {
    if SplitExt(p).ext != [] {
      ExtensionAfterName(p);
    } else {
      NoExtensionOnlyDots(p);
    }
  }

  /** When `splitext` finds an extension, a character other than '.' comes
      before its '.' in the last component. */
  lemma ExtensionAfterName(p: string)
    requires SplitExt(p).ext != []
    ensures DottedLastComponent(p) && NotOnlyDots(SplitExt(p).root)
  {
    var sep := RFind(p, '/');
    var dot := RFind(p, '.');
    var k :| 0 <= k < dot - sep - 1 && p[sep + 1..dot][k] != '.';
    var j := sep + 1 + k;
    assert p[j] != '.';
    RFindPrefix(p, '/', dot);
    assert p[..dot][j] == p[j];
  }

  /** When `splitext` finds no extension, every character of the last
      component that comes before a '.' is itself a '.'. */
  lemma NoExtensionOnlyDots(p: string)
    requires SplitExt(p).ext == []
    ensures !DottedLastComponent(p)
  {
    var sep := RFind(p, '/');
    var dot := RFind(p, '.');
    RFindIsLast(p, '.');
    forall i, j | sep < j < i < |p| && p[i] == '.' ensures p[j] == '.' {
      assert i <= dot;
      assert p[sep + 1..dot][j - sep - 1] == p[j];
    }
  }

  /** Appending a text free of `c` keeps the last `c` where it was. */
  lemma RFindAppendWithout(s: string, t: string, c: char)
    requires c !in t
    ensures RFind(s + t, c) == RFind(s, c)
  {
    var p := s + t;
    RFindIsLast(s, c);
    forall m | RFind(s, c) < m < |p| ensures p[m] != c {
      if |s| <= m {
        assert p[m] == t[m - |s|];
      }
    }
    RFindIs(p, c, RFind(s, c));
  }

  /** Appending a text that holds `c` moves the last `c` into that text. */
  lemma RFindAppendWith(s: string, t: string, c: char)
    requires c in t
    ensures RFind(s + t, c) == |s| + RFind(t, c)
  {
    var p := s + t;
    var k := RFind(t, c);
    RFindIsLast(t, c);
    forall m | |s| + k < m < |p| ensures p[m] != c {
      assert p[m] == t[m - |s|];
    }
    assert 0 <= k && p[|s| + k] == t[k];
    RFindIs(p, c, |s| + k);
  }

  /** Appending a text whose only `c` is its first character puts the last `c` there. */
  lemma RFindAppendLeading(s: string, t: string, c: char)
    requires t != [] && t[0] == c && c !in t[1..]
    ensures RFind(s + t, c) == |s|
  {
    assert s + t == (s + [c]) + t[1..];
    RFindAppendWithout(s + [c], t[1..], c);
    RFindIs(s + [c], c, |s|);
  }

  /** Splitting a path whose last component is a root not made of dots only,
      followed by a one-dot extension, gives back exactly that root and that
      extension. */
  lemma {:induction false} SplitExtAt(s: string, e: string)
    requires e != [] && e[0] == '.' && '.' !in e[1..] && '/' !in e
    requires NotOnlyDots(s)
    ensures SplitExt(s + e) == Split(s, e)
  {
    var p := s + e;
    var sep := RFind(s, '/');
    var j :| sep < j < |s| && s[j] != '.';
    RFindAppendLeading(s, e, '.');
    RFindAppendWithout(s, e, '/');
    assert p[sep + 1..|s|][j - sep - 1] == s[j];
    assert p[..|s|] == s && p[|s|..] == e;
  }

  /** `os.path.join(a, b)` for two components: an absolute `b` replaces `a`,
      otherwise a '/' is put between them unless `a` is empty or ends in one.
      Either way the joined path has the base name of `b`. */
  function Join(a: string, b: string): (r: string)
    ensures Basename(r) == Basename(b)
  {
    if |b| > 0 && b[0] == '/' then b
    else if a == [] then b
    else if a[|a| - 1] == '/' then
      assert a + b == a[..|a| - 1] + "/" + b;
      BasenameAfterSlash(a[..|a| - 1], b);
      a + b
    else
      BasenameAfterSlash(a, b);
      a + "/" + b
  }

  /** One character of `str.lower`, for ASCII only: 'A'..'Z' become 'a'..'z'. */
  function LowerChar(c: char): char {
    if 'A' <= c <= 'Z' then (c as int + 32) as char else c
  }

  /** `str.lower` restricted to ASCII: every character is lowered on its own. */
  function LowerAscii(s: string): (r: string)
    ensures |r| == |s|
  {
    if s == [] then [] else [LowerChar(s[0])] + LowerAscii(s[1..])
  }

  /** Lowering a string lowers each of its characters in place. */
  lemma {:induction false} LowerAsciiAt(s: string, i: int)
    requires 0 <= i < |s|
    ensures LowerAscii(s)[i] == LowerChar(s[i])
  {
    if i > 0 {
      LowerAsciiAt(s[1..], i - 1);
    }
  }

  /** Lowering distributes over concatenation. */
  lemma {:induction false} LowerAsciiAppend(s: string, t: string)
    ensures LowerAscii(s + t) == LowerAscii(s) + LowerAscii(t)
  {
    if s != [] {
      assert (s + t)[1..] == s[1..] + t;
      LowerAsciiAppend(s[1..], t);
    } else {
      assert s + t == t;
    }
  }

  /** Lowering a string is lowering its two parts at any cut. */
  lemma LowerAsciiSplit(s: string, k: int)
    requires 0 <= k <= |s|
    ensures LowerAscii(s) == LowerAscii(s[..k]) + LowerAscii(s[k..])
  {
    assert s == s[..k] + s[k..];
    LowerAsciiAppend(s[..k], s[k..]);
  }
}
