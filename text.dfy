/**
 * String helpers the guardrail code relies on from Python's runtime:
 * `str.join`, `str.strip`, the ordering used by `sorted` on strings, and
 * the `name` and `stem` of a POSIX `pathlib` path.
 */
module Text {

  /** `sep.join(parts)`. */
  function Join(parts: seq<string>, sep: string): string
  {
    if |parts| == 0 then ""
    else if |parts| == 1 then parts[0]
    else parts[0] + sep + Join(parts[1..], sep)
  }

  // ---------------------------------------------------------------------------
  // str.strip()
  // ---------------------------------------------------------------------------

  /** The characters `str.isspace()` accepts, which `str.strip()` removes. */
  predicate IsSpace(c: char)
  {
    c == ' ' || c == '\t' || c == '\n' || c == '\r' || c == '\U{B}' || c == '\U{C}'
    || ('\U{1C}' <= c <= '\U{1F}') || c == '\U{85}' || c == '\U{A0}' || c == '\U{1680}'
    || ('\U{2000}' <= c <= '\U{200A}') || c == '\U{2028}' || c == '\U{2029}'
    || c == '\U{202F}' || c == '\U{205F}' || c == '\U{3000}'
  }

  /** Length of the run of whitespace that starts `s`. */
  function LeadingSpaces(s: string): (k: nat)
    ensures k <= |s|
    ensures forall i :: 0 <= i < k ==> IsSpace(s[i])
    ensures k < |s| ==> !IsSpace(s[k])
  {
    if |s| > 0 && IsSpace(s[0]) then 1 + LeadingSpaces(s[1..]) else 0
  }

  /** Length of the run of whitespace that ends `s`. */
  function TrailingSpaces(s: string): (k: nat)
    ensures k <= |s|
    ensures forall i :: |s| - k <= i < |s| ==> IsSpace(s[i])
    ensures k < |s| ==> !IsSpace(s[|s| - 1 - k])
  {
    if |s| > 0 && IsSpace(s[|s| - 1]) then 1 + TrailingSpaces(s[..|s| - 1]) else 0
  }

  /**
   * `s.strip()`: the longest middle part of `s` that neither starts nor ends
   * with whitespace, obtained by removing whitespace only.
   */
  function Strip(s: string): (r: string)
    ensures r == "" || (!IsSpace(r[0]) && !IsSpace(r[|r| - 1]))
    ensures exists i, j :: 0 <= i <= j <= |s| && r == s[i..j]
              && (forall k :: 0 <= k < i ==> IsSpace(s[k]))
              && (forall k :: j <= k < |s| ==> IsSpace(s[k]))
    ensures r == "" <==> forall k :: 0 <= k < |s| ==> IsSpace(s[k])
  {
    var i := LeadingSpaces(s);
    var j := |s| - TrailingSpaces(s[i..]);
    assert s[i..][..j - i] == s[i..j];
    s[i..j]
  }

  // ---------------------------------------------------------------------------
  // Python's ordering of strings and sorted()
  // ---------------------------------------------------------------------------

  /**
   * `a < b` on Python strings: code point by code point, a proper prefix
   * coming first.
   */
  predicate StrLess(a: string, b: string)
  {
    if |a| == 0 then |b| > 0
    else if |b| == 0 then false
    else if a[0] != b[0] then a[0] < b[0]
    else StrLess(a[1..], b[1..])
  }

  lemma {:induction false} StrLessIrreflexive(a: string)
    ensures !StrLess(a, a)
  {
    if |a| > 0 { StrLessIrreflexive(a[1..]); }
  }

  lemma {:induction false} StrLessAsymmetric(a: string, b: string)
    ensures !(StrLess(a, b) && StrLess(b, a))
  {
    if |a| > 0 && |b| > 0 && a[0] == b[0] { StrLessAsymmetric(a[1..], b[1..]); }
  }

  lemma {:induction false} StrLessTransitive(a: string, b: string, c: string)
    requires StrLess(a, b) && StrLess(b, c)
    ensures StrLess(a, c)
  {
    if |a| > 0 && a[0] == b[0] && b[0] == c[0] {
      StrLessTransitive(a[1..], b[1..], c[1..]);
    }
  }

  lemma {:induction false} StrLessTotal(a: string, b: string)
    ensures a == b || StrLess(a, b) || StrLess(b, a)
  {
    if |a| > 0 && |b| > 0 && a[0] == b[0] {
      StrLessTotal(a[1..], b[1..]);
      if a[1..] == b[1..] {
        assert a == [a[0]] + a[1..] && b == [b[0]] + b[1..];
      }
    }
  }

  /** `m` is the smallest element of `s`. */
  predicate IsLeast(m: string, s: set<string>)
  {
    m in s && forall y :: y in s && y != m ==> StrLess(m, y)
  }

  lemma {:induction false} LeastExists(s: set<string>)
    requires s != {}
    ensures exists m :: IsLeast(m, s)
    decreases s
  {
    var x :| x in s;
    if s - {x} == {} {
      assert s == {x};
      assert IsLeast(x, s);
    } else {
      LeastExists(s - {x});
      var m :| IsLeast(m, s - {x});
      StrLessTotal(x, m);
      if StrLess(x, m) {
        forall y | y in s && y != x ensures StrLess(x, y) {
          if y != m { StrLessTransitive(x, m, y); }
        }
        assert IsLeast(x, s);
      } else {
        assert IsLeast(m, s);
      }
    }
  }

  lemma LeastUnique(s: set<string>)
    ensures forall m1, m2 :: IsLeast(m1, s) && IsLeast(m2, s) ==> m1 == m2
  {
    forall m1, m2 | IsLeast(m1, s) && IsLeast(m2, s) ensures m1 == m2 {
      StrLessAsymmetric(m1, m2);
    }
  }

  /** Every element of `xs` is smaller than every later one. */
  predicate StrictlySorted(xs: seq<string>)
  {
    forall i, j :: 0 <= i < j < |xs| ==> StrLess(xs[i], xs[j])
  }

  /**
   * `sorted(s)` for a set of strings: its elements, each once, in
   * increasing order.
   */
  function SortedStrings(s: set<string>): (r: seq<string>)
    ensures StrictlySorted(r)
    ensures forall x :: x in r <==> x in s
    ensures |r| == |s|
    decreases s
  {
    if s == {} then []
    else
      LeastExists(s);
      LeastUnique(s);
      var m :| IsLeast(m, s);
      var rest := SortedStrings(s - {m});
      assert s == (s - {m}) + {m};
      [m] + rest
  }

  /**
   * A strictly sorted list is determined by its elements, so the sorted
   * list of a set is the only such list.
   */
  lemma {:induction false} SortedUnique(xs: seq<string>, ys: seq<string>)
    requires StrictlySorted(xs) && StrictlySorted(ys)
    requires forall x :: x in xs <==> x in ys
    ensures xs == ys
  {
    assert xs != [] ==> xs[0] in ys;
    assert ys != [] ==> ys[0] in xs;
    if xs != [] {
      if xs[0] != ys[0] {
        var i :| 0 <= i < |ys| && ys[i] == xs[0];
        var j :| 0 <= j < |xs| && xs[j] == ys[0];
        assert StrLess(ys[0], xs[0]) && StrLess(xs[0], ys[0]);
        StrLessAsymmetric(xs[0], ys[0]);
      }
      forall x ensures x in xs[1..] <==> x in ys[1..] {
        if x in xs[1..] {
          var i :| 1 <= i < |xs| && xs[i] == x;
          assert StrLess(xs[0], x);
          StrLessIrreflexive(x);
          assert x in ys && x != ys[0];
        }
        if x in ys[1..] {
          var i :| 1 <= i < |ys| && ys[i] == x;
          assert StrLess(ys[0], x);
          StrLessIrreflexive(x);
          assert x in xs && x != xs[0];
        }
      }
      SortedUnique(xs[1..], ys[1..]);
      assert xs == [xs[0]] + xs[1..] && ys == [ys[0]] + ys[1..];
    }
  }

  // ---------------------------------------------------------------------------
  // pathlib.PurePosixPath(p).name and .stem
  // ---------------------------------------------------------------------------

  /** The text after the last `/` of `p` (all of `p` when it has none). */
  function LastSegment(p: string): (seg: string)
    ensures |seg| <= |p|
  {
    if |p| == 0 || p[|p| - 1] == '/' then ""
    else LastSegment(p[..|p| - 1]) + [p[|p| - 1]]
  }

  /** The last segment is a suffix without `/`, preceded by `/` unless it is all of `p`. */
  lemma {:induction false} LastSegmentShape(p: string)
    ensures LastSegment(p) == p[|p| - |LastSegment(p)|..]
    ensures '/' !in LastSegment(p)
    ensures |LastSegment(p)| < |p| ==> p[|p| - |LastSegment(p)| - 1] == '/'
  {
    if |p| > 0 && p[|p| - 1] != '/' {
      var init := p[..|p| - 1];
      LastSegmentShape(init);
      assert init[|init| - |LastSegment(init)|..] + [p[|p| - 1]] == p[|p| - |LastSegment(p)|..];
    }
  }

  /**
   * `PurePosixPath(p).name`: pathlib drops empty and `.` components, so the
   * name is the last remaining component, or "" when none remains.
   */
  function PathName(p: string): string
    decreases |p|
  {
    var seg := LastSegment(p);
    if seg != "" && seg != "." then seg
    else if |seg| == |p| then ""
    else PathName(p[..|p| - |seg| - 1])
  }

  /** A name never holds a `/` and is never `.`. */
  lemma {:induction false} PathNameShape(p: string)
    ensures '/' !in PathName(p) && PathName(p) != "."
    decreases |p|
  {
    var seg := LastSegment(p);
    LastSegmentShape(p);
    if !(seg != "" && seg != ".") && |seg| != |p| {
      PathNameShape(p[..|p| - |seg| - 1]);
    }
  }

  /** `p.split("/")`: the `/`-separated components of `p`, in order. */
  function Components(p: string): (cs: seq<string>)
    ensures |cs| >= 1
    decreases |p|
  {
    var seg := LastSegment(p);
    if |seg| == |p| then [p] else Components(p[..|p| - |seg| - 1]) + [seg]
  }

  /** A component pathlib keeps: neither empty nor `.`. */
  predicate Significant(c: string)
  {
    c != "" && c != "."
  }

  lemma {:induction false} JoinSnoc(xs: seq<string>, x: string, sep: string)
    requires |xs| >= 1
    ensures Join(xs + [x], sep) == Join(xs, sep) + sep + x
    decreases |xs|
  {
    if |xs| == 1 {
      assert (xs + [x])[1..] == [x];
    } else {
      assert (xs + [x])[1..] == xs[1..] + [x];
      JoinSnoc(xs[1..], x, sep);
    }
  }

  /** The components pathlib keeps, in order: `[c for c in cs if c and c != "."]`. */
  function SignificantParts(cs: seq<string>): (r: seq<string>)
    ensures |r| <= |cs|
    ensures forall i :: 0 <= i < |r| ==> Significant(r[i]) && r[i] in cs
  {
    if cs == [] then []
    else SignificantParts(cs[..|cs| - 1]) + if Significant(cs[|cs| - 1]) then [cs[|cs| - 1]] else []
  }

  /** A path without `/` is its only component, and its own name when significant. */
  lemma SingleComponent(p: string)
    requires |LastSegment(p)| == |p|
    ensures Components(p) == [p]
    ensures PathName(p) == if Significant(p) then p else ""
  {
    LastSegmentShape(p);
  }

  /** A path with a `/` adds its last segment to the components of what precedes it. */
  lemma LaterComponent(p: string)
    requires |LastSegment(p)| < |p|
    ensures var seg := LastSegment(p);
            var q := p[..|p| - |seg| - 1];
            && Components(p) == Components(q) + [seg]
            && PathName(p) == if Significant(seg) then seg else PathName(q)
  {
  }

  /** Joining the components with `/` gives back the path. */
  lemma {:induction false} ComponentsJoin(p: string)
    ensures Join(Components(p), "/") == p
    decreases |p|
  {
    var seg := LastSegment(p);
    if |seg| < |p| {
      var q := p[..|p| - |seg| - 1];
      assert Components(p) == Components(q) + [seg] by {
        LaterComponent(p);
      }
      assert Join(Components(q), "/") == q by {
        ComponentsJoin(q);
      }
      assert Join(Components(q) + [seg], "/") == Join(Components(q), "/") + "/" + seg by {
        JoinSnoc(Components(q), seg, "/");
      }
      assert p == q + "/" + seg by {
        LastSegmentShape(p);
      }
    } else {
      assert Components(p) == [p] by {
        SingleComponent(p);
      }
    }
  }

  /** No component holds a `/`. */
  lemma {:induction false} ComponentsHaveNoSlash(p: string)
    ensures forall i :: 0 <= i < |Components(p)| ==> '/' !in Components(p)[i]
    decreases |p|
  {
    var seg := LastSegment(p);
    assert '/' !in seg && (|seg| == |p| ==> seg == p) by {
      LastSegmentShape(p);
    }
    if |seg| < |p| {
      var q := p[..|p| - |seg| - 1];
      var cs := Components(q);
      assert Components(p) == cs + [seg] by {
        LaterComponent(p);
      }
      ComponentsHaveNoSlash(q);
      assert forall i :: 0 <= i < |cs| ==> (cs + [seg])[i] == cs[i];
      assert (cs + [seg])[|cs|] == seg;
    } else {
      assert Components(p) == [p] by {
        SingleComponent(p);
      }
    }
  }

  lemma SignificantPartsSnoc(cs: seq<string>, c: string)
    ensures SignificantParts(cs + [c]) == SignificantParts(cs) + if Significant(c) then [c] else []
  {
    assert (cs + [c])[..|cs + [c]| - 1] == cs;
  }

  /**
   * `PurePosixPath(p).name`: the last component that is neither empty nor
   * `.`, or "" when there is none.
   */
  /** The last significant part after one more component. */
  lemma LastPartStep(before: seq<string>, seg: string, nameBefore: string)
    requires nameBefore == if before == [] then "" else before[|before| - 1]
    ensures var parts := before + if Significant(seg) then [seg] else [];
            (if Significant(seg) then seg else nameBefore) == if parts == [] then "" else parts[|parts| - 1]
  {
    if !Significant(seg) {
      assert before + [] == before;
    }
  }

  lemma {:induction false} PathNameIsLastPart(p: string)
    ensures var parts := SignificantParts(Components(p));
            PathName(p) == if parts == [] then "" else parts[|parts| - 1]
    decreases |p|
  {
    var seg := LastSegment(p);
    if |seg| == |p| {
      assert PathName(p) == if Significant(p) then p else "" by {
        SingleComponent(p);
      }
      assert SignificantParts(Components(p)) == [] + if Significant(p) then [p] else [] by {
        SingleComponent(p);
        SignificantPartsSnoc([], p);
        assert [] + [p] == [p];
      }
      LastPartStep([], p, "");
    } else {
      var q := p[..|p| - |seg| - 1];
      var before := SignificantParts(Components(q));
      assert PathName(q) == if before == [] then "" else before[|before| - 1] by {
        PathNameIsLastPart(q);
      }
      assert SignificantParts(Components(p)) == before + if Significant(seg) then [seg] else [] by {
        LaterComponent(p);
        SignificantPartsSnoc(Components(q), seg);
      }
      assert PathName(p) == if Significant(seg) then seg else PathName(q) by {
        LaterComponent(p);
      }
      LastPartStep(before, seg, PathName(q));
    }
  }

  /** A plain file name is its own name. */
  lemma PathNameOfPlain(file: string)
    requires file != "" && file != "." && '/' !in file
    ensures PathName(file) == file
  {
    LastSegmentPlain(file);
  }

  /** A plain file name is its own name, and so is a path that ends in it. */
  lemma PathNameOfJoin(dir: string, file: string)
    requires file != "" && file != "." && '/' !in file
    ensures PathName(file) == file
    ensures PathName(dir + "/" + file) == file
  {
    PathNameOfPlain(file);
    LastSegmentAfterSlash(dir, file);
  }

  lemma {:induction false} LastSegmentPlain(s: string)
    requires '/' !in s
    ensures LastSegment(s) == s
  {
    if |s| > 0 {
      LastSegmentPlain(s[..|s| - 1]);
      assert s == s[..|s| - 1] + [s[|s| - 1]];
    }
  }

  lemma {:induction false} LastSegmentAfterSlash(dir: string, s: string)
    requires '/' !in s
    ensures LastSegment(dir + "/" + s) == s
  {
    var p := dir + "/" + s;
    if |s| == 0 {
      assert p[|p| - 1] == '/';
    } else {
      var init := s[..|s| - 1];
      assert p[|p| - 1] == s[|s| - 1] && s[|s| - 1] != '/';
      assert p[..|p| - 1] == dir + "/" + init;
      LastSegmentAfterSlash(dir, init);
      assert LastSegment(p) == LastSegment(p[..|p| - 1]) + [p[|p| - 1]];
      assert s == init + [s[|s| - 1]];
    }
  }

  /** Index of the last `c` in `s`, or -1 (`str.rfind`). */
  function LastIndexOf(s: string, c: char): (i: int)
    ensures -1 <= i < |s|
  {
    if |s| == 0 then -1
    else if s[|s| - 1] == c then |s| - 1
    else LastIndexOf(s[..|s| - 1], c)
  }

  /** `rfind` finds a `c`, and no `c` comes after it. */
  lemma {:induction false} LastIndexOfMeaning(s: string, c: char)
    ensures LastIndexOf(s, c) >= 0 ==> s[LastIndexOf(s, c)] == c
    ensures forall j :: LastIndexOf(s, c) < j < |s| ==> s[j] != c
  {
    if |s| > 0 && s[|s| - 1] != c {
      LastIndexOfMeaning(s[..|s| - 1], c);
    }
  }

  /**
   * `PurePosixPath(name).stem` for a path's final component: the name
   * without its final suffix, where a suffix is a last `.` that is neither
   * the first nor the last character.
   */
  function PathStem(name: string): string
  {
    var i := LastIndexOf(name, '.');
    if 0 < i < |name| - 1 then name[..i] else name
  }

  /**
   * The stem is a prefix of the name; it drops a final `.ext` exactly when
   * that dot is neither first nor last and no dot follows it.
   */
  lemma PathStemMeaning(name: string)
    ensures |PathStem(name)| <= |name| && name[..|PathStem(name)|] == PathStem(name)
    ensures PathStem(name) != name ==>
              var stem := PathStem(name);
              0 < |stem| && |stem| < |name| - 1 && name[|stem|] == '.' && '.' !in name[|stem| + 1..]
    ensures PathStem(name) == name ==>
              forall k :: 0 < k < |name| - 1 && name[k] == '.' ==> '.' in name[k + 1..]
  {
    var i := LastIndexOf(name, '.');
    LastIndexOfMeaning(name, '.');
    if 0 < i < |name| - 1 {
      assert forall k :: i < k < |name| ==> name[k] != '.';
    } else {
      assert forall k :: 0 < k < |name| - 1 && name[k] == '.' ==> name[|name| - 1] == '.';
    }
  }

  /** The stem of `base.ext` is `base` when the extension has no dot. */
  lemma PathStemOfExtension(base: string, ext: string)
    requires base != "" && ext != "" && '.' !in ext
    ensures PathStem(base + "." + ext) == base
  {
    var name := base + "." + ext;
    var i := LastIndexOf(name, '.');
    LastIndexOfMeaning(name, '.');
    assert name[|base|] == '.';
    assert forall j :: |base| < j < |name| ==> name[j] == ext[j - |base| - 1];
    assert i == |base|;
    assert name[..i] == base;
  }
}
