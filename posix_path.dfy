/**
  The parts of Python's `os.path` (the POSIX flavour, `posixpath`) that the
  scripts call: `splitext`, `join` and `dirname`, with the `str.rstrip` and
  last-component helpers they rest on. Separator '/', extension separator
  '.', no alternative separator.
*/
module PosixPath {
  import opened Text

  const Sep: char := '/'
  const ExtSep: char := '.'

  predicate AllChar(s: string, c: char) {
    forall k :: 0 <= k < |s| ==> s[k] == c
  }

  /** The last path component, which `splitext` searches: everything after
      the last '/', or the whole path when it has none. */
  function Basename(p: string): (b: string)
    ensures Sep !in b && EndsWith(p, b)
  {
    var i := RFind(p, Sep) + 1;
    assert forall k :: 0 <= k < |p[i..]| ==> p[i..][k] == p[i + k];
    p[i..]
  }

  /** The last component is the whole path, or it follows a '/': it is the
      longest '/'-free end of the path. */
  lemma BasenameIsLastComponent(p: string)
    ensures var b := Basename(p);
            |b| == |p| || p[|p| - |b| - 1] == Sep
  {
  }

  /** `os.path.splitext(p)`: the extension starts at the last '.' when that
      dot lies in the last path component and is preceded there by some
      character other than '.'; otherwise the extension is empty. */
  function SplitExt(p: string): (r: (string, string))
    ensures r.0 + r.1 == p
    ensures r.1 == [] || (r.1[0] == ExtSep && forall k :: 1 <= k < |r.1| ==> r.1[k] != ExtSep && r.1[k] != Sep)
  {
    var sepIndex := RFind(p, Sep);
    var dotIndex := RFind(p, ExtSep);
    if dotIndex > sepIndex && !AllChar(p[sepIndex + 1..dotIndex], ExtSep) then
      assert forall k :: 1 <= k < |p[dotIndex..]| ==> p[dotIndex..][k] == p[dotIndex + k];
      (p[..dotIndex], p[dotIndex..])
    else
      (p, [])
  }

  /** A name has an extension when, once the leading dots of its last
      component are set aside, a '.' remains in that component. */
  predicate HasExtension(p: string) {
    var b := Basename(p);
    ExtSep in b[LeadingDots(b)..]
  }

  function LeadingDots(s: string): (n: nat)
    ensures n <= |s|
    ensures forall k :: 0 <= k < n ==> s[k] == ExtSep
    ensures n < |s| ==> s[n] != ExtSep
  {
    if s != [] && s[0] == ExtSep then 1 + LeadingDots(s[1..]) else 0
  }

  /** Two-argument `os.path.join(a, b)`: an absolute `b` replaces `a`; a '/' is
      inserted unless `a` is empty or already ends with one. */
  function Join(a: string, b: string): string {
    if b != [] && b[0] == Sep then b
    else if a == [] || a[|a| - 1] == Sep then a + b
    else a + [Sep] + b
  }

  /** The joined path ends with `b`, and begins with `a` unless `b` is
      absolute; exactly one '/' separates them when `a` is a non-empty
      directory without a trailing '/'. */
  lemma JoinShape(a: string, b: string)
    ensures EndsWith(Join(a, b), b)
    ensures StartsWith(b, [Sep]) || StartsWith(Join(a, b), a)
    ensures !StartsWith(b, [Sep]) && a != [] && a[|a| - 1] != Sep ==> Join(a, b) == a + [Sep] + b
  {
    var r := Join(a, b);
    assert r[|r| - |b|..] == b;
    if !StartsWith(b, [Sep]) {
      assert r[..|a|] == a;
    }
  }

  function RStrip(s: string, c: char): (r: string)
    ensures |r| <= |s| && r == s[..|r|]
    ensures r == [] || r[|r| - 1] != c
    ensures forall k :: |r| <= k < |s| ==> s[k] == c
  {
    if s != [] && s[|s| - 1] == c then RStrip(s[..|s| - 1], c) else s
  }

  /** `os.path.dirname(p)`: everything up to the last '/', with trailing
      slashes removed unless the head consists only of slashes. */
  function Dirname(p: string): (d: string)
  {
    var i := RFind(p, Sep) + 1;
    var head := p[..i];
    if head != [] && !AllChar(head, Sep) then RStrip(head, Sep) else head
  }

  // ---------------------------------------------------------------------

  /** `splitext` finds an extension exactly when the name has one in the
      sense of `HasExtension`. */
  lemma SplitExtFindsExtension(p: string)
    ensures SplitExt(p).1 != [] <==> HasExtension(p)
  {
    if SplitExt(p).1 != [] {
      ExtensionIsInBasename(p);
    }
    if HasExtension(p) {
      BasenameExtensionIsFound(p);
    }
  }

  lemma ExtensionIsInBasename(p: string)
    requires SplitExt(p).1 != []
    ensures HasExtension(p)
  {
    var sepIndex, dotIndex := RFind(p, Sep), RFind(p, ExtSep);
    var start := sepIndex + 1;
    var between := p[start..dotIndex];
    // some character other than '.' sits between the last '/' and the last '.'
    var j :| 0 <= j < |between| && between[j] != ExtSep;
    var b := Basename(p);
    assert b == p[start..];
    assert b[j] == between[j];
    DotAfterNonDot(b, j, dotIndex - start);
  }

  /** A '.' that follows some other character of a name lies past the
      name's leading dots. */
  lemma DotAfterNonDot(b: string, j: nat, d: nat)
    requires j < d < |b| && b[j] != ExtSep && b[d] == ExtSep
    ensures ExtSep in b[LeadingDots(b)..]
  {
    var m := LeadingDots(b);
    assert b[m..][d - m] == ExtSep;
  }

  lemma BasenameExtensionIsFound(p: string)
    requires HasExtension(p)
    ensures SplitExt(p).1 != []
  {
    var start := RFind(p, Sep) + 1;
    var b := Basename(p);
    assert b == p[start..];
    var m := LeadingDots(b);
    var d := DotPastLeadingDots(b);
    assert p[start + m] == b[m] && p[start + d] == b[d];
    NonDotBeforeLastDot(p, start, start + m, start + d);
  }

  /** A '.' found past a name's leading dots lies strictly after the first
      character that is not a dot. */
  lemma DotPastLeadingDots(b: string) returns (d: nat)
    requires ExtSep in b[LeadingDots(b)..]
    ensures LeadingDots(b) < d < |b| && b[LeadingDots(b)] != ExtSep && b[d] == ExtSep
  {
    var m := LeadingDots(b);
    var i :| 0 <= i < |b[m..]| && b[m..][i] == ExtSep;
    d := m + i;
  }

  /** When position `k` holds some other character and a later position
      `d` holds a '.', and no '/' follows `start`, the last '.' lies after
      the last '/' and is preceded by something other than dots. */
  lemma NonDotBeforeLastDot(p: string, start: nat, k: nat, d: nat)
    requires start == RFind(p, Sep) + 1
    requires start <= k < d < |p| && p[k] != ExtSep && p[d] == ExtSep
    ensures RFind(p, ExtSep) > RFind(p, Sep)
    ensures !AllChar(p[start..RFind(p, ExtSep)], ExtSep)
  {
    var dotIndex := RFind(p, ExtSep);
    assert dotIndex >= d;
    assert p[start..dotIndex][k - start] == p[k];
  }

  /** A name without an extension is returned whole, with an empty
      extension. */
  lemma SplitExtWithoutExtension(p: string)
    requires !HasExtension(p)
    ensures SplitExt(p) == (p, [])
  {
    SplitExtFindsExtension(p);
  }

  /** The extension never reaches outside the last path component. */
  lemma SplitExtStaysInBasename(p: string)
    ensures EndsWith(Basename(p), SplitExt(p).1)
  {
    var ext := SplitExt(p).1;
    if ext != [] {
      var sepIndex := RFind(p, Sep);
      var dotIndex := RFind(p, ExtSep);
      assert dotIndex > sepIndex;
      assert ext == p[dotIndex..];
      var b := Basename(p);
      assert b == p[sepIndex + 1..];
      assert b[|b| - |ext|..] == ext;
    }
  }

  /** Appending an extension to a root whose last component holds something
      other than dots gives back that root and that extension. */
  lemma SplitExtOfAddedExtension(root: string, ext: string)
    requires |ext| > 0 && ext[0] == ExtSep
    requires forall k :: 1 <= k < |ext| ==> ext[k] != ExtSep && ext[k] != Sep
    requires !AllChar(Basename(root), ExtSep)
    ensures SplitExt(root + ext) == (root, ext)
  {
    var p := root + ext;
    var sepIndex := RFind(root, Sep);
    forall k | sepIndex < k < |p| ensures p[k] != Sep {
      if k < |root| {
        assert p[k] == root[k];
      } else {
        assert p[k] == ext[k - |root|];
      }
    }
    RFindUnique(p, Sep, sepIndex);
    forall k | |root| < k < |p| ensures p[k] != ExtSep {
      assert p[k] == ext[k - |root|];
    }
    assert p[|root|] == ExtSep;
    RFindUnique(p, ExtSep, |root|);
    assert Basename(root) == root[sepIndex + 1..];
    assert p[sepIndex + 1..|root|] == Basename(root);
    assert p[..|root|] == root && p[|root|..] == ext;
  }

  /** Joining a relative name that has no '/' onto a directory, then taking
      `dirname`, gives the directory back, unless it ends with a '/'. */
  lemma DirnameOfJoin(dir: string, name: string)
    requires name != [] && Sep !in name
    requires dir == [] || dir[|dir| - 1] != Sep
    ensures Dirname(Join(dir, name)) == dir
  {
    var p := Join(dir, name);
    if dir == [] {
      assert p == name;
      assert RFind(p, Sep) == -1;
    } else {
      assert !StartsWith(name, [Sep]);
      assert !EndsWith(dir, [Sep]);
      assert p == dir + [Sep] + name;
      assert p[|dir|] == Sep;
      assert RFind(p, Sep) == |dir|;
      var head := p[..|dir| + 1];
      assert head == dir + [Sep];
      assert head[|dir| - 1] != Sep;
      assert RStrip(head, Sep) == RStrip(dir, Sep);
    }
  }
}
