/** Path strings and the components they spell (internal/sandbox/fspath/fspath.go). */
module Paths {

  predicate IsAbs(path: string) { |path| > 0 && path[0] == '/' }

  predicate HasTrailingSlash(s: string) { |s| > 0 && s[|s| - 1] == '/' }

  function Trim(s: string): (t: string)
    ensures |t| <= |s| && !IsAbs(t)
  {
    if IsAbs(s) then Trim(s[1..]) else s
  }

  /** Length of the first component. */
  function Span(s: string): (n: nat)
    ensures n <= |s| && (forall i :: 0 <= i < n ==> s[i] != '/') && (n < |s| ==> s[n] == '/')
    ensures s != "" && !IsAbs(s) ==> n > 0
  {
    if s == "" || s[0] == '/' then 0 else 1 + Span(s[1..])
  }

  /** The non-empty components of a path, from left to right. */
  function Comps(path: string): seq<string>
    decreases |path|
  {
    var t := Trim(path);
    if t == "" then [] else [t[..Span(t)]] + Comps(t[Span(t)..])
  }

  predicate IsComponent(c: string) { c != "" && forall i :: 0 <= i < |c| ==> c[i] != '/' }

  ghost predicate AreComponents(cs: seq<string>) { forall i :: 0 <= i < |cs| ==> IsComponent(cs[i]) }

  lemma {:induction false} CompsAreComponents(path: string)
    ensures AreComponents(Comps(path))
    ensures Comps(path) == [] <==> Trim(path) == ""
    decreases |path|
  {
    var t := Trim(path);
    if t != "" { CompsAreComponents(t[Span(t)..]); }
  }

  lemma {:induction false} CompsTrim(path: string)
    ensures Comps(path) == Comps(Trim(path))
  {
    assert Trim(Trim(path)) == Trim(path);
  }

  lemma {:induction false} SpanAppend(a: string, b: string)
    ensures Span(a + "/" + b) == Span(a)
    decreases a
  {
    if a != "" && a[0] != '/' {
      assert (a + "/" + b)[1..] == a[1..] + "/" + b;
      SpanAppend(a[1..], b);
    }
  }

  /** A slash between two paths separates their components. */
  lemma {:induction false} CompsJoin(a: string, b: string)
    ensures Comps(a + "/" + b) == Comps(a) + Comps(b)
    decreases |a|
  {
    var s := a + "/" + b;
    if a == "" {
      assert s[1..] == b;
      CompsTrim(s);
      CompsTrim(b);
    } else if a[0] == '/' {
      assert s[1..] == a[1..] + "/" + b;
      CompsJoin(a[1..], b);
      CompsTrim(s); CompsTrim(s[1..]);
      CompsTrim(a); CompsTrim(a[1..]);
    } else {
      var n := Span(a);
      SpanAppend(a, b);
      assert s[..n] == a[..n] && s[n..] == a[n..] + "/" + b;
      CompsJoin(a[n..], b);
    }
  }

  // ----- scanning loops

  method TrimLeadingSlash(s: string) returns (t: string)
    ensures t == Trim(s)
  {
    var i := 0;
    while i < |s| && s[i] == '/'
      invariant i <= |s| && Trim(s[i..]) == Trim(s)
    {
      assert s[i..][1..] == s[i + 1..];
      i := i + 1;
    }
    t := s[i..];
  }

  method IndexSlash(path: string) returns (r: int)
    ensures r == if Span(path) < |path| then Span(path) else -1
  {
    var i := 0;
    while i < |path|
      invariant i <= |path| && Span(path) == i + Span(path[i..])
    {
      if path[i] == '/' {
        return i;
      }
      assert path[i..][1..] == path[i + 1..];
      i := i + 1;
    }
    return -1;
  }

  /** Separates the next element from the rest: for a relative path, the first component
      and a path that spells the others; for an absolute one, the root. */
  method Walk(path: string) returns (elem: string, name: string)
    ensures path == "" ==> elem == "" && name == ""
    ensures IsAbs(path) ==> elem == "/" && Comps(name) == Comps(path)
    ensures path != "" && !IsAbs(path) ==> IsComponent(elem) && Comps(path) == [elem] + Comps(name)
    ensures !IsAbs(name) && (path != "" ==> |name| < |path|)
    ensures name == "" <==> |Comps(path)| <= (if IsAbs(path) then 0 else 1)
  {
    CompsAreComponents(path);
    var i := IndexSlash(path);
    if i < 0 {
      assert path[..|path|] == path && path[|path|..] == "";
      return path, "";
    }
    if i == 0 {
      CompsTrim(path);
      i := 1;
    }
    CompsTrim(path[i..]);
    CompsAreComponents(path[i..]);
    name := TrimLeadingSlash(path[i..]);
    elem := path[..i];
  }

  // ----- depth

  function Descend(depth: nat, c: string): nat {
    if c == "." then depth
    else if c == ".." then (if depth > 0 then depth - 1 else 0)
    else depth + 1
  }

  function DepthFrom(depth: nat, cs: seq<string>): nat
    decreases |cs|
  {
    if cs == [] then depth else DepthFrom(Descend(depth, cs[0]), cs[1..])
  }

  method Depth(path: string) returns (depth: nat)
    ensures depth == DepthFrom(0, Comps(path))
  {
    depth := 0;
    var rest := path;
    while true
      invariant DepthFrom(depth, Comps(rest)) == DepthFrom(0, Comps(path))
      decreases |rest|
    {
      CompsTrim(rest);
      var t := TrimLeadingSlash(rest);
      if t == "" {
        return;
      }
      var i := IndexSlash(t);
      if i < 0 {
        i := |t|;
      }
      assert Comps(t) == [t[..i]] + Comps(t[i..]);
      depth := Descend(depth, t[..i]);
      rest := t[i..];
    }
  }

  // ----- root

  ghost predicate OnlyDots(cs: seq<string>) {
    forall i :: 0 <= i < |cs| ==> cs[i] == "." || cs[i] == ".."
  }

  lemma {:induction false} FirstComp(t: string, k: nat)
    requires t != "" && !IsAbs(t) && k <= |t| && (forall i :: 0 <= i < k ==> t[i] != '/') && (k == |t| || t[k] == '/')
    ensures Span(t) == k && Comps(t) == [t[..k]] + Comps(t[k..])
  {
    assert Span(t) == k;
    assert Trim(t) == t;
  }

  /** True exactly for the absolute paths made of "." and ".." only. */
  method IsRoot(path: string) returns (r: bool)
    ensures r == (IsAbs(path) && OnlyDots(Comps(path)))
  {
    if |path| == 0 || path[0] != '/' {
      return false;
    }
    var rest := path;
    while true
      invariant OnlyDots(Comps(rest)) <==> OnlyDots(Comps(path))
      decreases |rest|
    {
      CompsTrim(rest);
      var t := TrimLeadingSlash(rest);
      if t == "" {
        return true;
      }
      var k := Span(t);
      FirstComp(t, k);
      if "./" <= t {
        assert t[..1] == ".";
        FirstComp(t, 1);
        CompsTrim(t[1..]); CompsTrim(t[2..]); assert t[1..][1..] == t[2..];
        rest := t[2..];
      } else if "../" <= t {
        assert t[..2] == "..";
        FirstComp(t, 2);
        CompsTrim(t[2..]); CompsTrim(t[3..]); assert t[2..][1..] == t[3..];
        rest := t[3..];
      } else if t == "." {
        FirstComp(t, 1);
        rest := t[1..];
      } else if t == ".." {
        FirstComp(t, 2);
        rest := t[2..];
      } else {
        assert t[..k] != "." && t[..k] != "..";
        assert Comps(t)[0] == t[..k];
        return false;
      }
      assert OnlyDots(Comps(t)) <==> OnlyDots(Comps(rest)) by {
        assert Comps(t)[1..] == Comps(rest);
        assert Comps(t)[0] == "." || Comps(t)[0] == "..";
      }
    }
  }

  // ----- cleaning

  function NonDot(cs: seq<string>): seq<string> {
    if cs == [] then [] else (if cs[0] == "." then [] else [cs[0]]) + NonDot(cs[1..])
  }

  function JoinSlash(cs: seq<string>): string {
    if cs == [] then "" else if |cs| == 1 then cs[0] else cs[0] + "/" + JoinSlash(cs[1..])
  }

  function Cleaned(path: string): string {
    if path == "" then ""
    else
      var cs := NonDot(Comps(path));
      if cs == [] then (if IsAbs(path) then "/" else ".")
      else Wrap(JoinSlash(cs), IsAbs(path), HasTrailingSlash(path))
  }

  datatype Region = Region(off: nat, end: nat)

  predicate InPath(path: string, r: Region) { r.off <= r.end <= |path| }

  predicate AllInPath(path: string, elems: seq<Region>) {
    forall i :: 0 <= i < |elems| ==> InPath(path, elems[i])
  }

  function Slices(path: string, elems: seq<Region>): (cs: seq<string>)
    requires AllInPath(path, elems)
    ensures |cs| == |elems|
  {
    seq(|elems|, i requires 0 <= i < |elems| => assert InPath(path, elems[i]); path[elems[i].off..elems[i].end])
  }

  lemma {:induction false} SlicesAppend(path: string, elems: seq<Region>, e: Region)
    requires AllInPath(path, elems) && InPath(path, e)
    ensures AllInPath(path, elems + [e])
    ensures Slices(path, elems + [e]) == Slices(path, elems) + [path[e.off..e.end]]
  {
  }

  lemma {:induction false} JoinAppend(cs: seq<string>, c: string)
    ensures JoinSlash(cs + [c]) == JoinSlash(cs) + (if cs == [] then "" else "/") + c
  {
    if |cs| > 1 {
      assert (cs + [c])[1..] == cs[1..] + [c];
      JoinAppend(cs[1..], c);
    } else if |cs| == 1 {
      assert (cs + [c])[1..] == [c];
    }
  }

  lemma {:induction false} JoinStep(buf: string, cs: seq<string>, n: nat)
    requires n < |cs|
    ensures buf + JoinSlash(cs[..n + 1]) ==
      if n == 0 then buf + JoinSlash(cs[..n]) + cs[n] else buf + JoinSlash(cs[..n]) + "/" + cs[n]
  {
    assert cs[..n + 1] == cs[..n] + [cs[n]];
    JoinAppend(cs[..n], cs[n]);
    var j := JoinSlash(cs[..n]);
    if n == 0 {
      assert buf + (j + "" + cs[n]) == buf + j + cs[n];
    } else {
      assert buf + (j + "/" + cs[n]) == buf + j + "/" + cs[n];
    }
  }

  function Rooted(path: string): seq<string> {
    (if IsAbs(path) then [""] else []) + NonDot(Comps(path))
  }

  predicate Scanned(path: string, elems: seq<Region>, i: nat) {
    && i <= |path| && AllInPath(path, elems)
    && Slices(path, elems) + NonDot(Comps(path[i..])) == Rooted(path)
  }

  lemma {:induction false} ScannedStep(path: string, elems: seq<Region>, i: nat, j: nat)
    requires Scanned(path, elems, i) && i < j <= |path|
    requires NonDot(Comps(path[i..])) == (if path[i..j] == "." then [] else [path[i..j]]) + NonDot(Comps(path[j..]))
    ensures Scanned(path, if path[i..j] == "." then elems else elems + [Region(i, j)], j)
  {
    var rest := NonDot(Comps(path[j..]));
    if path[i..j] == "." {
      assert NonDot(Comps(path[i..])) == rest;
    } else {
      SlicesAppend(path, elems, Region(i, j));
      assert Slices(path, elems) + ([path[i..j]] + rest) == Slices(path, elems) + [path[i..j]] + rest;
    }
  }

  /** The regions of the components to keep, after an empty one when the path is absolute. */
  method CollectElems(path: string) returns (elems: seq<Region>)
    ensures AllInPath(path, elems)
    ensures Slices(path, elems) == Rooted(path)
    ensures |elems| > 0 ==> (elems[0] == Region(0, 0) <==> IsAbs(path))
  {
    elems := [];
    if IsAbs(path) {
      elems := [Region(0, 0)];
      assert Slices(path, elems) == [""];
    }
    var i := 0;
    while true
      invariant Scanned(path, elems, i)
      invariant IsAbs(path) ==> |elems| > 0
      invariant |elems| > 0 ==> (elems[0] == Region(0, 0) <==> IsAbs(path))
      decreases |path| - i
    {
      i := SkipSlashes(path, i);
      if i == |path| {
        assert Comps(path[i..]) == [];
        break;
      }
      var j := SkipComponent(path, i);
      ScannedStep(path, elems, i, j);
      if path[i..j] != "." {
        elems := elems + [Region(i, j)];
      }
      i := j;
    }
  }

  method SkipComponent(path: string, i: nat) returns (j: nat)
    requires i < |path| && path[i] != '/'
    ensures i < j <= |path|
    ensures NonDot(Comps(path[i..])) == (if path[i..j] == "." then [] else [path[i..j]]) + NonDot(Comps(path[j..]))
  {
    j := i;
    while j < |path| && path[j] != '/'
      invariant i <= j <= |path|
      invariant forall k :: i <= k < j ==> path[k] != '/'
    {
      j := j + 1;
    }
    FirstComp(path[i..], j - i);
    assert path[i..][..j - i] == path[i..j] && path[i..][j - i..] == path[j..];
    assert Comps(path[i..])[1..] == Comps(path[j..]);
  }

  method SkipSlashes(path: string, start: nat) returns (i: nat)
    requires start <= |path|
    ensures start <= i <= |path| && (i < |path| ==> path[i] != '/')
    ensures Comps(path[i..]) == Comps(path[start..])
  {
    i := start;
    while i < |path| && path[i] == '/'
      invariant start <= i <= |path| && Comps(path[i..]) == Comps(path[start..])
    {
      CompsTrim(path[i..]); CompsTrim(path[i + 1..]);
      assert path[i..][1..] == path[i + 1..];
      i := i + 1;
    }
  }

  /** Appends the slices that regions stand for, with slashes between them. */
  method JoinElems(buf: string, path: string, elems: seq<Region>) returns (r: string)
    requires AllInPath(path, elems)
    ensures r == buf + JoinSlash(Slices(path, elems))
  {
    ghost var cs := Slices(path, elems);
    r := buf;
    for n := 0 to |elems|
      invariant r == buf + JoinSlash(cs[..n])
    {
      assert InPath(path, elems[n]);
      JoinStep(buf, cs, n);
      if n != 0 {
        r := r + "/";
      }
      r := r + path[elems[n].off..elems[n].end];
    }
    assert cs[..|elems|] == cs;
  }

  method AppendClean(buf: string, path: string) returns (r: string)
    ensures r == buf + Cleaned(path)
  {
    if |path| == 0 {
      return buf;
    }
    var elems := CollectElems(path);
    if |elems| == 0 {
      return buf + ".";
    }
    if |elems| == 1 && elems[0] == Region(0, 0) {
      return buf + "/";
    }
    r := JoinElems(buf, path, elems);
    CleanedFromRooted(path);
    if HasTrailingSlash(path) {
      r := r + "/";
    }
  }

  lemma {:induction false} CleanedFromRooted(path: string)
    requires path != "" && NonDot(Comps(path)) != []
    ensures Cleaned(path) == JoinSlash(Rooted(path)) + (if HasTrailingSlash(path) then "/" else "")
  {
    var cs := NonDot(Comps(path));
    if IsAbs(path) {
      JoinRooted(cs);
    } else {
      assert Rooted(path) == [] + cs == cs;
      assert "" + JoinSlash(cs) == JoinSlash(cs);
    }
  }

  lemma {:induction false} JoinRooted(cs: seq<string>)
    requires cs != []
    ensures JoinSlash([""] + cs) == "/" + JoinSlash(cs)
  {
    assert ([""] + cs)[1..] == cs;
    assert "" + "/" == "/";
  }

  lemma {:induction false} NonDotComponents(cs: seq<string>)
    requires AreComponents(cs)
    ensures AreComponents(NonDot(cs))
    ensures NonDot(NonDot(cs)) == NonDot(cs)
    ensures forall d: nat :: DepthFrom(d, NonDot(cs)) == DepthFrom(d, cs)
  {
    if cs != [] {
      NonDotComponents(cs[1..]);
      if cs[0] != "." {
        assert NonDot(cs)[1..] == NonDot(cs[1..]);
      } else {
        assert NonDot(cs) == NonDot(cs[1..]);
      }
    }
  }

  lemma {:induction false} CompsOfOne(c: string)
    requires IsComponent(c)
    ensures Comps(c) == [c]
  {
    FirstComp(c, |c|);
    assert c[..|c|] == c && Comps(c[|c|..]) == [];
  }

  lemma {:induction false} JoinEnds(cs: seq<string>)
    requires AreComponents(cs) && cs != []
    ensures var s := JoinSlash(cs); s != "" && !IsAbs(s) && !HasTrailingSlash(s)
  {
    if |cs| > 1 { JoinEnds(cs[1..]); }
  }

  lemma {:induction false} CompsOfJoin(cs: seq<string>)
    requires AreComponents(cs) && cs != []
    ensures Comps(JoinSlash(cs)) == cs
  {
    CompsOfOne(cs[0]);
    if |cs| > 1 {
      CompsOfJoin(cs[1..]);
      CompsJoin(cs[0], JoinSlash(cs[1..]));
    }
  }

  function Wrap(j: string, abs: bool, trailing: bool): string {
    (if abs then "/" else "") + j + (if trailing then "/" else "")
  }

  lemma {:induction false} WrapEnds(j: string, abs: bool, trailing: bool)
    requires j != "" && !IsAbs(j) && !HasTrailingSlash(j)
    ensures var c := Wrap(j, abs, trailing);
      c != "" && IsAbs(c) == abs && HasTrailingSlash(c) == trailing
  {
  }

  lemma {:induction false} CompsWrapped(j: string, abs: bool, trailing: bool)
    ensures Comps(Wrap(j, abs, trailing)) == Comps(j)
  {
    var head := (if abs then "/" else "") + j;
    assert head == if abs then "" + "/" + j else j;
    CompsJoin("", j);
    CompsJoin(head, "");
    assert Comps("") == [];
    assert head + (if trailing then "/" else "") == if trailing then head + "/" + "" else head;
    assert Comps(j) + [] == Comps(j) == [] + Comps(j);
  }

  /** Cleaning keeps whether a path is absolute, and its components other than ".". */
  lemma {:induction false} CleanComponents(path: string)
    requires path != ""
    ensures var c := Cleaned(path);
      && c != "" && IsAbs(c) == IsAbs(path)
      && NonDot(Comps(c)) == NonDot(Comps(path))
      && HasTrailingSlash(c) == (if NonDot(Comps(path)) == [] then IsAbs(path) else HasTrailingSlash(path))
  {
    var cs := NonDot(Comps(path));
    CompsAreComponents(path);
    NonDotComponents(Comps(path));
    if cs == [] {
      FirstComp(".", 1);
    } else {
      CompsOfJoin(cs);
      JoinEnds(cs);
      WrapEnds(JoinSlash(cs), IsAbs(path), HasTrailingSlash(path));
      CompsWrapped(JoinSlash(cs), IsAbs(path), HasTrailingSlash(path));
    }
  }

  lemma {:induction false} CleanIdempotent(path: string)
    ensures Cleaned(Cleaned(path)) == Cleaned(path)
  {
    if path != "" { CleanComponents(path); }
  }

  lemma {:induction false} CleanKeepsDepth(path: string)
    ensures DepthFrom(0, Comps(Cleaned(path))) == DepthFrom(0, Comps(path))
  {
    if path != "" {
      CleanComponents(path);
      CompsAreComponents(path);
      CompsAreComponents(Cleaned(path));
      NonDotComponents(Comps(path));
      NonDotComponents(Comps(Cleaned(path)));
    }
  }
}
