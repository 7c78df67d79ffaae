/** `src/server.rs`: the path guard wrapped around every `/{path:.*}` route.
    The routed text is parsed into a path and joined onto the base directory;
    the request goes on only when the joined path has the base as a
    component prefix.  Nothing is normalised, so `..` passes the guard. */
module Server {
  import opened Common
  import opened Paths
  import opened Http

  /** `RequestedPath(PathBuf)`: the joined path the guard hands on. */
  datatype RequestedPath = RequestedPath(path: Path)

  /** `Into<PathBuf>` and `AsRef<PathBuf>`: the stored path, unchanged. */
  function Into(rp: RequestedPath): (p: Path)
    ensures RequestedPath(p) == rp
  {
    rp.path
  }

  /** `base_dir.join(&path)` for the routed text `raw`. */
  function Combined(base: Path, raw: string): (p: Path)
    ensures IsAbsolute(base) ==> IsAbsolute(p)
    ensures WellFormed(base) ==> WellFormed(p)
    ensures |raw| > 0 && raw[0] == '/' ==> p == Parse(raw)
  {
    Join(base, Parse(raw))
  }

  /** `combined_path.starts_with(base_dir)`: every relative text passes, an
      absolute one only when it already lies under the base. */
  function IsAccepted(base: Path, raw: string): (ok: bool)
    ensures ok <==> !(|raw| > 0 && raw[0] == '/') || StartsWith(Parse(raw), base)
  {
    StartsWith(Combined(base, raw), base)
  }

  /** `base_dir.join(path)` as the changing handlers compute it from the
      guarded path: the guarded path itself whenever it is absolute. */
  function Rejoined(base: Path, rp: RequestedPath): (p: Path)
    ensures IsAbsolute(Into(rp)) ==> p == Into(rp)
    ensures !IsAbsolute(Into(rp)) ==> StartsWith(p, base)
  {
    Join(base, Into(rp))
  }

  /** Under an absolute base the handlers work on the very path the guard
      let through. */
  lemma RejoinedIsCombined(base: Path, raw: string)
    requires IsAbsolute(base)
    ensures Rejoined(base, RequestedPath(Combined(base, raw))) == Combined(base, raw)
  {
  }

  /** The 400 answer: the `Display` of `FileListInputError::InvalidPath`. */
  function Rejection(raw: string): (r: Response)
    ensures r.Plain? && r.status == 400 && r.contentType.None? && r.reason.None?
    ensures r.body == TextBody("Invalid path: " + DebugQuote(raw))
  {
    Plain(400, None, None, TextBody(Display(InvalidPath(raw))))
  }

  /** The part of a `ServiceRequest` the guard reads and writes: the routed
      `path` segment and the request's extension slot for `RequestedPath`. */
  class ServiceRequest {
    const matchPath: string
    var requested: Option<RequestedPath>

    constructor (matchPath: string)
      ensures this.matchPath == matchPath && requested == None
    {
      this.matchPath := matchPath;
      requested := None;
    }
  }

  /** What `call` does with the request: hand it to the inner service, or
      answer it itself. */
  datatype GuardOutcome = Forward | Rejected(response: Response)

  /** `RequestPathMiddleware::call`: on acceptance, exactly
      `RequestedPath(combined)` is inserted and the request goes on; on
      rejection the request is answered with 400 and left as it was. */
  method Call(req: ServiceRequest, base: Path) returns (g: GuardOutcome)
    modifies req
    ensures g.Forward? <==> IsAccepted(base, req.matchPath)
    ensures g.Forward? ==> req.requested == Some(RequestedPath(Combined(base, req.matchPath)))
    ensures g.Rejected? ==> req.requested == old(req.requested) && g.response == Rejection(req.matchPath)
  {
    var combined := Combined(base, req.matchPath);
    if !StartsWith(combined, base) {
      return Rejected(Rejection(req.matchPath));
    }
    req.requested := Some(RequestedPath(combined));
    g := Forward;
  }

  // ---------------------------------------------------------------------
  // What the guard does and does not keep out

  /** Every component is a proper name. */
  predicate AllNamed(b: Path)
  {
    forall i :: 0 <= i < |b| ==> b[i].Normal?
  }

  lemma {:induction false} ResolveAppendNames(a: Path, b: Path)
    requires AllNamed(b)
    ensures Resolve(a + b) == Resolve(a) + b
    decreases |b|
  {
    if b == [] {
      assert a + b == a;
    } else {
      var init := b[..|b| - 1];
      var c := b[|b| - 1];
      assert AllNamed(init) by {
        forall i | 0 <= i < |init| ensures init[i].Normal? {
          assert init[i] == b[i];
        }
      }
      assert c == Normal(c.name);
      var ai := a + init;
      calc {
        Resolve(a + b);
        { assert a + b == ai + [c]; }
        Resolve(ai + [Normal(c.name)]);
        { ResolveAppendName(ai, c.name); }
        Resolve(ai) + [c];
        { ResolveAppendNames(a, init); }
        Resolve(a) + init + [c];
        { assert init + [c] == b; }
        Resolve(a) + b;
      }
    }
  }

  /** A relative text without `..` stays inside a resolved base even after
      the operating system resolves it. */
  lemma GuardContainsPlainNames(base: Path, raw: string)
    requires Canonical(base)
    requires !(|raw| > 0 && raw[0] == '/')
    requires forall i :: 0 <= i < |Parse(raw)| ==> Parse(raw)[i] != ParentDir
    ensures IsAccepted(base, raw)
    ensures StartsWith(Resolve(Combined(base, raw)), base)
  {
    var q := Parse(raw);
    var s := if |q| > 0 && q[0] == CurDir then q[1..] else q;
    assert Combined(base, raw) == base + s;
    assert AllNamed(s) by {
      forall i | 0 <= i < |s| ensures s[i].Normal? {
        if |q| > 0 && q[0] == CurDir {
          assert s[i] == q[i + 1];
        }
      }
    }
    ResolveAppendNames(base, s);
    ResolveCanonicalFixed(base);
    assert (base + s)[..|base|] == base;
  }

  lemma ParseParentEtc()
    ensures Parse("../etc") == [ParentDir, Normal("etc")]
  {
    var pieces := ["..", "etc"];
    assert Glue(pieces[1..]) == "etc";
    assert Glue(pieces) == "../etc";
    SplitGlue(pieces);
    assert Named(pieces[1..][1..]) == [];
    assert Named(pieces[1..]) == [Normal("etc")];
  }

  lemma ResolveDataParentEtc()
    ensures Resolve([RootDir, Normal("data"), ParentDir, Normal("etc")]) == [RootDir, Normal("etc")]
  {
    var p: Path := [RootDir, Normal("data"), ParentDir, Normal("etc")];
    assert p[..1] == [RootDir] && p[..2] == [RootDir, Normal("data")] && p[..3] == [RootDir, Normal("data"), ParentDir];
    assert p[..1][..0] == [];
    assert Resolve(p[..1]) == [RootDir];
    assert p[..2][..1] == p[..1];
    assert Resolve(p[..2]) == [RootDir, Normal("data")];
    assert p[..3][..2] == p[..2];
    assert Resolve(p[..3]) == [RootDir];
    assert p[..3] == p[..|p| - 1];
  }

  /** `..` is not kept out: with the base at `/data`, the text `../etc`
      passes the guard, yet the path it names resolves to `/etc`. */
  lemma GuardAdmitsTraversal()
    ensures IsAccepted([RootDir, Normal("data")], "../etc")
    ensures Resolve(Combined([RootDir, Normal("data")], "../etc")) == [RootDir, Normal("etc")]
    ensures !StartsWith(Resolve(Combined([RootDir, Normal("data")], "../etc")), [RootDir, Normal("data")])
  {
    ParseParentEtc();
    assert Combined([RootDir, Normal("data")], "../etc") == [RootDir, Normal("data"), ParentDir, Normal("etc")];
    ResolveDataParentEtc();
  }

  /** An absolute text outside the base is refused: with the base at
      `/data`, `/etc` gets the 400 answer. */
  lemma GuardRejectsAbsoluteOutside()
    ensures !IsAccepted([RootDir, Normal("data")], "/etc")
  {
    assert "/etc"[1..] == "etc";
    SplitPlain("etc");
    assert Named(["etc"]) == [Normal("etc")] + Named([]);
    assert Parse("/etc") == [RootDir, Normal("etc")];
    assert Combined([RootDir, Normal("data")], "/etc") == [RootDir, Normal("etc")];
    assert [RootDir, Normal("etc")][..2] != [RootDir, Normal("data")] by {
      assert [RootDir, Normal("etc")][..2][1] == Normal("etc");
    }
  }
}
