/** Rust's `std::path` as the core uses it (Unix flavour): a path is the
    sequence of components `Path::components()` yields.  `Parse` is
    `PathBuf::from(&str)` seen through `components()`, `Render` writes a
    component sequence back as text, `Join` is `PathBuf::push`/`Path::join`,
    `StartsWith` is `Path::starts_with` and `Parent`/`FileName` are the
    accessors of the same names.  Nothing here touches `..`: resolving it is
    the operating system's business (`Resolve`, at the end). */
module Paths {
  import opened Common

  datatype Component = RootDir | CurDir | ParentDir | Normal(name: string)

  type Path = seq<Component>

  /** A name `components()` reports as `Normal`: not empty, not `.` or `..`,
      and without a separator. */
  predicate ValidName(s: string)
  {
    s != "" && s != "." && s != ".." && '/' !in s
  }

  /** The shape every `components()` result has: the root only in front, a
      `.` only in front of a relative path, and proper names. */
  predicate WellFormed(p: Path)
  {
    forall i :: 0 <= i < |p| ==>
      (p[i] == RootDir ==> i == 0) &&
      (p[i] == CurDir ==> i == 0) &&
      (p[i].Normal? ==> ValidName(p[i].name))
  }

  predicate IsAbsolute(p: Path)
  {
    |p| > 0 && p[0] == RootDir
  }

  /** `Path::starts_with`: `prefix` is a component-wise prefix of `p`. */
  predicate StartsWith(p: Path, prefix: Path)
  {
    |prefix| <= |p| && p[..|prefix|] == prefix
  }

  /** `PathBuf::push`: an absolute right operand replaces the left one; a
      relative one is appended after a separator, and a `.` in front of it
      disappears unless the left operand is empty. */
  function Join(left: Path, right: Path): (r: Path)
    ensures IsAbsolute(right) ==> r == right
    ensures !IsAbsolute(right) ==> StartsWith(r, left)
    ensures !IsAbsolute(right) && left != [] ==>
              r == left + (if |right| > 0 && right[0] == CurDir then right[1..] else right)
    ensures WellFormed(left) && WellFormed(right) ==> WellFormed(r)
  {
    if IsAbsolute(right) || left == [] then right
    else if |right| > 0 && right[0] == CurDir then left + right[1..]
    else left + right
  }

  /** `Path::parent`: drop the last component, unless there is none or it is
      the root. */
  function Parent(p: Path): (r: Option<Path>)
    ensures r.Some? ==> |r.value| + 1 == |p| && StartsWith(p, r.value)
    ensures r.None? <==> p == [] || p[|p| - 1] == RootDir
  {
    if p == [] || p[|p| - 1] == RootDir then None else Some(p[..|p| - 1])
  }

  /** `Path::file_name`: the last component when it is a proper name. */
  function FileName(p: Path): (r: Option<string>)
    ensures r.Some? <==> |p| > 0 && p[|p| - 1].Normal?
    ensures r.Some? ==> r.value == p[|p| - 1].name
  {
    if |p| > 0 && p[|p| - 1].Normal? then Some(p[|p| - 1].name) else None
  }

  // ---------------------------------------------------------------------
  // Text form

  /** The pieces of a string between `/` separators. */
  function Split(s: string): (r: seq<string>)
    ensures |r| >= 1
    ensures forall i :: 0 <= i < |r| ==> '/' !in r[i]
  {
    if s == [] then [""]
    else if s[0] == '/' then [""] + Split(s[1..])
    else
      var t := Split(s[1..]);
      [[s[0]] + t[0]] + t[1..]
  }

  /** The pieces put back together with `/` between them. */
  function Glue(pieces: seq<string>): string
  {
    if pieces == [] then ""
    else if |pieces| == 1 then pieces[0]
    else pieces[0] + "/" + Glue(pieces[1..])
  }

  /** The components that stand for the pieces of a path's text: empty
      pieces and `.` vanish, `..` is `ParentDir`, anything else a name. */
  function Named(pieces: seq<string>): (r: Path)
    requires forall i :: 0 <= i < |pieces| ==> '/' !in pieces[i]
    ensures forall i :: 0 <= i < |r| ==> r[i] == ParentDir || (r[i].Normal? && ValidName(r[i].name))
  {
    if pieces == [] then []
    else
      var head: Path :=
        if pieces[0] == "" || pieces[0] == "." then []
        else if pieces[0] == ".." then [ParentDir]
        else [Normal(pieces[0])];
      head + Named(pieces[1..])
  }

  /** `PathBuf::from(s).components()`: a leading `/` is the root; a leading
      `.` of a relative path is kept as `CurDir`. */
  function Parse(s: string): (p: Path)
    ensures WellFormed(p)
    ensures IsAbsolute(p) <==> |s| > 0 && s[0] == '/'
  {
    if |s| > 0 && s[0] == '/' then [RootDir] + Named(Split(s[1..]))
    else
      var pieces := Split(s);
      if pieces[0] == "." then [CurDir] + Named(pieces[1..]) else Named(pieces)
  }

  function ComponentText(c: Component): string
  {
    match c
    case RootDir => ""
    case CurDir => "."
    case ParentDir => ".."
    case Normal(name) => name
  }

  function Texts(p: Path): (r: seq<string>)
    ensures |r| == |p|
  {
    if p == [] then [] else [ComponentText(p[0])] + Texts(p[1..])
  }

  /** A path written out the way `to_str()` shows a canonical spelling. */
  function Render(p: Path): string
  {
    if IsAbsolute(p) then "/" + Glue(Texts(p[1..])) else Glue(Texts(p))
  }

  lemma {:induction false} SplitPlain(a: string)
    requires '/' !in a
    ensures Split(a) == [a]
    decreases |a|
  {
    if a != [] {
      SplitPlain(a[1..]);
      assert [a[0]] + a[1..] == a;
    }
  }

  lemma {:induction false} SplitAtSeparator(a: string, rest: string)
    requires '/' !in a
    ensures Split(a + "/" + rest) == [a] + Split(rest)
    decreases |a|
  {
    var s := a + "/" + rest;
    if a == [] {
      assert s == "/" + rest && s[1..] == rest;
    } else {
      assert s[0] == a[0] && s[1..] == a[1..] + "/" + rest;
      SplitAtSeparator(a[1..], rest);
      assert [a[0]] + a[1..] == a;
    }
  }

  /** Splitting undoes gluing when no piece holds a separator. */
  lemma {:induction false} SplitGlue(pieces: seq<string>)
    requires |pieces| >= 1
    requires forall i :: 0 <= i < |pieces| ==> '/' !in pieces[i]
    ensures Split(Glue(pieces)) == pieces
    decreases |pieces|
  {
    if |pieces| == 1 {
      SplitPlain(pieces[0]);
    } else {
      SplitGlue(pieces[1..]);
      SplitAtSeparator(pieces[0], Glue(pieces[1..]));
      assert [pieces[0]] + pieces[1..] == pieces;
    }
  }

  /** The components after the front of a well-formed path are `..` or names. */
  predicate Tail(p: Path)
  {
    forall i :: 0 <= i < |p| ==> p[i] == ParentDir || (p[i].Normal? && ValidName(p[i].name))
  }

  lemma {:induction false} NamedTexts(p: Path)
    requires Tail(p)
    ensures forall i :: 0 <= i < |Texts(p)| ==> '/' !in Texts(p)[i]
    ensures Named(Texts(p)) == p
    decreases |p|
  {
    if p != [] {
      assert Tail(p[1..]) by {
        forall i | 0 <= i < |p[1..]| ensures p[1..][i] == ParentDir || (p[1..][i].Normal? && ValidName(p[1..][i].name)) {
          assert p[1..][i] == p[i + 1];
        }
      }
      NamedTexts(p[1..]);
      assert Texts(p) == [ComponentText(p[0])] + Texts(p[1..]);
      assert Texts(p)[1..] == Texts(p[1..]);
      assert [p[0]] + p[1..] == p;
    }
  }

  lemma GlueFirst(pieces: seq<string>)
    requires |pieces| >= 1 && pieces[0] != ""
    ensures |Glue(pieces)| > 0 && Glue(pieces)[0] == pieces[0][0]
  {
  }

  lemma TailAfterFront(p: Path)
    requires WellFormed(p) && |p| > 0
    ensures Tail(p[1..])
  {
    var q := p[1..];
    forall i | 0 <= i < |q| ensures q[i] == ParentDir || (q[i].Normal? && ValidName(q[i].name)) {
      assert q[i] == p[i + 1];
    }
  }

  lemma ParseAbsoluteText(t: string)
    ensures Parse("/" + t) == [RootDir] + Named(Split(t))
  {
    var s := "/" + t;
    assert |s| > 0 && s[0] == '/' && s[1..] == t;
  }

  /** The names of a path's tail, glued and split again, read as that tail. */
  lemma NamedSplitGlue(q: Path)
    requires Tail(q)
    ensures Named(Split(Glue(Texts(q)))) == q
  {
    NamedTexts(q);
    if q == [] {
      assert Glue(Texts(q)) == "";
      assert Named([""]) == [] + Named([]);
    } else {
      SplitGlue(Texts(q));
    }
  }

  lemma {:induction false} ParseRenderAbsolute(p: Path)
    requires WellFormed(p) && IsAbsolute(p)
    ensures Parse(Render(p)) == p
  {
    var q := p[1..];
    TailAfterFront(p);
    assert Render(p) == "/" + Glue(Texts(q));
    ParseAbsoluteText(Glue(Texts(q)));
    NamedSplitGlue(q);
    assert [RootDir] + q == p;
  }

  lemma {:induction false} ParseRenderDot(p: Path)
    requires WellFormed(p) && |p| > 0 && p[0] == CurDir
    ensures Parse(Render(p)) == p
  {
    var q := p[1..];
    TailAfterFront(p);
    NamedTexts(q);
    assert Texts(p) == ["."] + Texts(q);
    assert !IsAbsolute(p);
    SplitGlue(Texts(p));
    GlueFirst(Texts(p));
    assert [CurDir] + q == p;
  }

  lemma {:induction false} ParseRenderNames(p: Path)
    requires Tail(p) && p != []
    ensures Parse(Render(p)) == p
  {
    NamedTexts(p);
    assert !IsAbsolute(p);
    SplitGlue(Texts(p));
    GlueFirst(Texts(p));
  }

  /** Writing a path out and reading it back gives the same components: the
      text form loses nothing. */
  lemma ParseRender(p: Path)
    requires WellFormed(p)
    ensures Parse(Render(p)) == p
  {
    if IsAbsolute(p) {
      ParseRenderAbsolute(p);
    } else if p == [] {
      assert Render(p) == "";
    } else if p[0] == CurDir {
      ParseRenderDot(p);
    } else {
      assert Tail(p);
      ParseRenderNames(p);
    }
  }

  /** Splitting at an added separator splits each side on its own. */
  lemma {:induction false} SplitConcat(x: string, y: string)
    ensures Split(x + "/" + y) == Split(x) + Split(y)
    decreases |x|
  {
    var s := x + "/" + y;
    if x == [] {
      assert s == "/" + y && s[1..] == y;
    } else if x[0] == '/' {
      assert s[0] == '/' && s[1..] == x[1..] + "/" + y;
      SplitConcat(x[1..], y);
    } else {
      assert s[0] == x[0] && s[1..] == x[1..] + "/" + y;
      SplitConcat(x[1..], y);
      var t := Split(x[1..]);
      assert (t + Split(y))[1..] == t[1..] + Split(y);
    }
  }

  lemma {:induction false} NamedConcat(u: seq<string>, v: seq<string>)
    requires forall i :: 0 <= i < |u| ==> '/' !in u[i]
    requires forall i :: 0 <= i < |v| ==> '/' !in v[i]
    ensures Named(u + v) == Named(u) + Named(v)
    decreases |u|
  {
    if u != [] {
      assert (u + v)[1..] == u[1..] + v;
      NamedConcat(u[1..], v);
    } else {
      assert u + v == v;
    }
  }

  /** Only the empty text reads as no components at all. */
  lemma {:induction false} ParseEmpty(a: string)
    requires a != ""
    ensures Parse(a) != []
  {
    if a[0] != '/' {
      var pieces := Split(a);
      if pieces[0] != "." {
        assert pieces[0] != "" by {
          if a[0] != '/' {
            assert Split(a) == [[a[0]] + Split(a[1..])[0]] + Split(a[1..])[1..];
          }
        }
        assert Named(pieces) == (if pieces[0] == ".." then [ParentDir] else [Normal(pieces[0])]) + Named(pieces[1..]);
      }
    }
  }

  /** The components of a relative text once a leading `.` is dropped. */
  lemma {:induction false} NamedOfRelative(b: string)
    requires !(|b| > 0 && b[0] == '/')
    ensures var p := Parse(b);
            Named(Split(b)) == (if |p| > 0 && p[0] == CurDir then p[1..] else p)
  {
    var sb := Split(b);
    if sb[0] == "." {
      assert Named(sb) == [] + Named(sb[1..]);
    } else {
      assert forall i :: 0 <= i < |Named(sb)| ==> Named(sb)[i] != CurDir;
    }
  }

  lemma {:induction false} ParseConcatAbsolute(a: string, b: string)
    requires |a| > 0 && a[0] == '/'
    ensures Parse(a + "/" + b) == Parse(a) + Named(Split(b))
  {
    var s := a + "/" + b;
    assert s[0] == '/' && s[1..] == a[1..] + "/" + b;
    SplitConcat(a[1..], b);
    NamedConcat(Split(a[1..]), Split(b));
  }

  lemma {:induction false} ParseConcatRelative(a: string, b: string)
    requires |a| > 0 && a[0] != '/'
    ensures Parse(a + "/" + b) == Parse(a) + Named(Split(b))
  {
    var s, sa, sb := a + "/" + b, Split(a), Split(b);
    assert Split(s) == sa + sb by { SplitConcat(a, b); }
    assert s[0] != '/' && (sa + sb)[0] == sa[0];
    if sa[0] == "." {
      assert (sa + sb)[1..] == sa[1..] + sb;
      assert Named(sa[1..] + sb) == Named(sa[1..]) + Named(sb) by { NamedConcat(sa[1..], sb); }
    } else {
      assert Named(sa + sb) == Named(sa) + Named(sb) by { NamedConcat(sa, sb); }
    }
  }

  /** `Join` is `PathBuf::push` on the text: pushing a relative text onto a
      non-empty one reads the same as the two texts with a separator between
      them, and pushing an absolute text reads as that text alone. */
  lemma {:induction false} JoinPushesText(a: string, b: string)
    requires a != ""
    ensures !(|b| > 0 && b[0] == '/') ==> Join(Parse(a), Parse(b)) == Parse(a + "/" + b)
    ensures |b| > 0 && b[0] == '/' ==> Join(Parse(a), Parse(b)) == Parse(b)
  {
    if !(|b| > 0 && b[0] == '/') {
      ParseEmpty(a);
      NamedOfRelative(b);
      if a[0] == '/' {
        ParseConcatAbsolute(a, b);
      } else {
        ParseConcatRelative(a, b);
      }
    }
  }

  /** A proper name reads as exactly one component. */
  lemma ParseName(n: string)
    ensures ValidName(n) ==> Parse(n) == [Normal(n)]
  {
    if ValidName(n) {
      SplitPlain(n);
      assert n[0] != '/' by { assert n[0] in n; }
      assert Named([n]) == [Normal(n)] + Named([]);
    }
  }

  // ---------------------------------------------------------------------
  // What the operating system makes of a path

  /** How the kernel resolves a path when no symbolic link is involved: `.`
      is skipped, `..` steps back over a name and stays put at the root. */
  function Resolve(p: Path): Path
    decreases |p|
  {
    if p == [] then [] else Step(Resolve(p[..|p| - 1]), p[|p| - 1])
  }

  function Step(acc: Path, c: Component): Path
  {
    match c
    case RootDir => [RootDir]
    case CurDir => acc
    case ParentDir =>
      if |acc| > 0 && acc[|acc| - 1].Normal? then acc[..|acc| - 1]
      else if acc == [RootDir] then acc
      else acc + [ParentDir]
    case Normal(n) => acc + [Normal(n)]
  }

  /** A resolved absolute path: the root followed by proper names. */
  predicate Canonical(q: Path)
  {
    IsAbsolute(q) && forall i :: 1 <= i < |q| ==> q[i].Normal? && ValidName(q[i].name)
  }

  lemma {:induction false} ResolveCanonical(p: Path)
    requires WellFormed(p) && IsAbsolute(p)
    ensures Canonical(Resolve(p))
    decreases |p|
  {
    if |p| == 1 {
      assert Resolve(p) == Step(Resolve([]), RootDir);
    } else {
      var init := p[..|p| - 1];
      assert WellFormed(init) && IsAbsolute(init) by {
        forall i | 0 <= i < |init| ensures (init[i] == RootDir ==> i == 0) && (init[i] == CurDir ==> i == 0) && (init[i].Normal? ==> ValidName(init[i].name)) {
          assert init[i] == p[i];
        }
      }
      ResolveCanonical(init);
    }
  }

  lemma ResolveAppendName(p: Path, n: string)
    ensures Resolve(p + [Normal(n)]) == Resolve(p) + [Normal(n)]
  {
    assert (p + [Normal(n)])[..|p|] == p;
  }

  lemma {:induction false} ResolveCanonicalFixed(q: Path)
    requires Canonical(q)
    ensures Resolve(q) == q
    decreases |q|
  {
    if |q| == 1 {
      assert Resolve(q) == Step(Resolve([]), RootDir);
    } else {
      var init := q[..|q| - 1];
      ResolveCanonicalFixed(init);
      assert init + [q[|q| - 1]] == q;
    }
  }
}
