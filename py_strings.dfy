/** The few Python string operations the scanner and the sort rely on:
    `str.startswith`, `str.endswith`, `str.lower` (ASCII letters only),
    `os.path.splitext` on a bare file name, `os.path.join` for POSIX paths,
    and `<` on `str` (code-point lexicographic order). */
module PyStrings {

  import opened Wrappers

  predicate StartsWith(s: string, prefix: string) {
    |prefix| <= |s| && s[..|prefix|] == prefix
  }

  lemma StartsWithConcat(p: string, q: string)
    ensures StartsWith(p + q, p)
  {
    assert (p + q)[..|p|] == p;
  }

  predicate EndsWith(s: string, suffix: string) {
    |suffix| <= |s| && s[|s| - |suffix|..] == suffix
  }

  predicate IsUpper(c: char) {
    'A' <= c <= 'Z'
  }

  function LowerChar(c: char): char {
    if IsUpper(c) then (c as int + 32) as char else c
  }

  /** `str.lower()`, restricted to ASCII letters. */
  function Lower(s: string): (r: string)
    ensures |r| == |s|
    ensures forall i :: 0 <= i < |r| ==> !IsUpper(r[i])
    ensures forall i :: 0 <= i < |r| && !IsUpper(s[i]) ==> r[i] == s[i]
    ensures forall i :: 0 <= i < |r| && IsUpper(s[i]) ==> r[i] as int == s[i] as int + ('a' as int - 'A' as int)
  {
    seq(|s|, i requires 0 <= i < |s| => LowerChar(s[i]))
  }

  /** A string holding at least one upper-case letter is never the result of `Lower`. */
  lemma LowerNeverUpper(s: string, t: string)
    requires exists i :: 0 <= i < |t| && IsUpper(t[i])
    ensures Lower(s) != t
  {
    var i :| 0 <= i < |t| && IsUpper(t[i]);
    if |Lower(s)| == |t| {
      assert !IsUpper(Lower(s)[i]);
    }
  }

  predicate AllDots(s: string) {
    forall i :: 0 <= i < |s| ==> s[i] == '.'
  }

  /** Index of the last '.' of `s` (`str.rfind('.')`), None when there is none. */
  function LastDot(s: string): (r: Option<nat>)
    ensures r.None? <==> forall i :: 0 <= i < |s| ==> s[i] != '.'
    ensures r.Some? ==> r.value < |s| && s[r.value] == '.'
    ensures r.Some? ==> forall i :: r.value < i < |s| ==> s[i] != '.'
  {
    if s == [] then None
    else if s[|s| - 1] == '.' then Some(|s| - 1)
    else LastDot(s[..|s| - 1])
  }

  /** The extension part of `os.path.splitext(name)` for a name without '/':
      from the last '.' to the end, unless only dots precede that '.'
      (so ".bashrc" and "..x" have no extension). */
  function Ext(name: string): (ext: string)
    ensures ext == "" || (EndsWith(name, ext) && ext[0] == '.')
  {
    match LastDot(name)
    case None => ""
    case Some(d) => if AllDots(name[..d]) then "" else name[d..]
  }

  /** `Ext` characterised without reference to its computation: the name has
      no extension exactly when every '.' in it has only dots before it;
      otherwise the extension is a suffix holding one '.', at its start, and
      not everything before it is dots. */
  lemma ExtMeans(name: string)
    ensures Ext(name) == "" <==> forall d :: 0 <= d < |name| && name[d] == '.' ==> AllDots(name[..d])
    ensures Ext(name) != "" ==> EndsWith(name, Ext(name)) && Ext(name)[0] == '.'
    ensures Ext(name) != "" ==> forall i :: 1 <= i < |Ext(name)| ==> Ext(name)[i] != '.'
    ensures Ext(name) != "" ==> !AllDots(name[..|name| - |Ext(name)|])
  {
    match LastDot(name)
    case None =>
    case Some(d) =>
      if !AllDots(name[..d]) {
        assert forall e :: 0 <= e < |name| && name[e] == '.' && !AllDots(name[..e]) ==> e <= d;
        assert name[..|name| - |Ext(name)|] == name[..d];
      }
  }

  /** A dot file with no other dot (".bashrc") has no extension. */
  lemma ExtDotFile(name: string)
    requires |name| > 0 && name[0] == '.'
    requires forall i :: 1 <= i < |name| ==> name[i] != '.'
    ensures Ext(name) == ""
  {
    assert LastDot(name) == Some(0);
    assert name[..0] == "";
  }

  /** Otherwise the extension starts at the last dot. */
  lemma ExtFromLastDot()
    ensures Ext("a.tar.gz") == ".gz"
  {
    assert "a.tar.gz"[5] == '.' && "a.tar.gz"[..5][0] == 'a' && "a.tar.gz"[5..] == ".gz";
  }

  /** `posixpath.join(a, b)`. */
  function Join(a: string, b: string): (p: string)
    ensures EndsWith(p, b)
    ensures !StartsWith(b, "/") && a != "" ==> StartsWith(p, a)
  {
    if StartsWith(b, "/") then b
    else if a == [] || EndsWith(a, "/") then a + b
    else a + "/" + b
  }

  /** Python's `a < b` on `str`: the first differing code point decides, and a
      proper prefix comes first. */
  predicate StrLt(a: string, b: string) {
    if a == [] then b != []
    else if b == [] then false
    else a[0] < b[0] || (a[0] == b[0] && StrLt(a[1..], b[1..]))
  }

  lemma {:induction false} StrLtIrreflexive(a: string)
    ensures !StrLt(a, a)
  {
    if a != [] {
      StrLtIrreflexive(a[1..]);
    }
  }

  lemma {:induction false} StrLtTransitive(a: string, b: string, c: string)
    requires StrLt(a, b) && StrLt(b, c)
    ensures StrLt(a, c)
  {
    if a != [] && b != [] && c != [] && a[0] == b[0] == c[0] {
      StrLtTransitive(a[1..], b[1..], c[1..]);
    }
  }

  /** Any two distinct strings are ordered one way or the other. */
  lemma {:induction false} StrLtTotal(a: string, b: string)
    ensures a == b || StrLt(a, b) || StrLt(b, a)
  {
    if a != [] && b != [] && a[0] == b[0] {
      StrLtTotal(a[1..], b[1..]);
      if a[1..] == b[1..] {
        assert a == [a[0]] + a[1..] && b == [b[0]] + b[1..];
      }
    }
  }
}
