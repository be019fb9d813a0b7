/** The file-serving routes of the web application: `validate_static_path`,
    `serve_static_file` and `download_file`.

    `appDir` is the directory of the application module (`os.path.dirname(__file__)`)
    and `cwd` the process's working directory; both only enter through `abspath`.
    A route's served root is `abspath(join(appDir, "..", directory))`. The checks as
    written compare the normalized request with that root by `startswith`, which
    also admits sibling directories whose names merely begin with the root's last
    name; `ValidateStaticPathStrict` and `DownloadFileFixed` are the corrected
    checks, proved to mean containment of component lists. */
module StaticFiles {
  import opened Strings
  import opened Paths

  const AllowedDirectories: seq<string> := ["resume", "resume_gen"]

  /** The download route's fixed directory. */
  const DownloadDirectory: string := "resume_gen"

  function Parent(cs: seq<string>): seq<string> {
    if |cs| == 0 then [] else cs[..|cs| - 1]
  }

  /** `os.path.abspath(os.path.join(appDir, '..', directory))` */
  function ServedRoot(cwd: string, appDir: string, directory: string): string {
    AbsPath(cwd, Join(Join(appDir, ".."), directory))
  }

  /** `os.path.abspath(os.path.join(base_dir, filename))` */
  function Requested(cwd: string, appDir: string, directory: string, filename: string): string {
    AbsPath(cwd, Join(ServedRoot(cwd, appDir, directory), filename))
  }

  /** `validate_static_path(directory, filename)` as written. */
  function ValidateStaticPath(cwd: string, appDir: string, directory: string,
                              filename: string): (r: bool)
    ensures r ==> directory in AllowedDirectories
  {
    directory in AllowedDirectories &&
    IsPrefix(ServedRoot(cwd, appDir, directory), Requested(cwd, appDir, directory, filename))
  }

  /** The same check with the root compared as a whole directory. */
  function ValidateStaticPathStrict(cwd: string, appDir: string, directory: string,
                                    filename: string): (r: bool)
    ensures r ==> directory in AllowedDirectories
  {
    directory in AllowedDirectories &&
    Within(ServedRoot(cwd, appDir, directory), Requested(cwd, appDir, directory, filename))
  }

  lemma AllowedAreSafe(directory: string)
    requires directory in AllowedDirectories
    ensures SafeComponent(directory)
  {
    assert directory == "resume" || directory == "resume_gen";
  }

  /** The served root is the application directory's parent with `directory` added. */
  lemma RootShape(cwd: string, appDir: string, d: string)
    requires IsAbs(appDir) && SafeComponent(d)
    ensures var root := ServedRoot(cwd, appDir, d);
      && IsAbs(root) && Lead(root) == Lead(appDir)
      && NormComps(root) == Parent(NormComps(appDir)) + [d]
      && Clean(NormComps(root))
      && root == Slashes(Lead(appDir)) + JoinPath(NormComps(root))
  {
    var up := Join(appDir, "..");
    NormPathAbs(appDir);
    JoinRelative(appDir, "..");
    SplitNoSep("..", Sep);
    var c := NormComps(appDir);
    assert NormComps(up) == Step(c, "..", true);
    if |c| > 0 {
      assert c[|c| - 1] != "..";
    }
    var q := Join(up, d);
    JoinRelative(up, d);
    SplitNoSep(d, Sep);
    assert NormComps(q) == Step(Parent(c), d, true);
    NormPathIdempotent(q);
    NormPathAbs(q);
    NormPathAbs(NormPath(q));
  }

  /** A relative file name continues the fold from the root's components. */
  lemma RequestedShape(cwd: string, appDir: string, d: string, f: string)
    requires IsAbs(appDir) && SafeComponent(d) && !IsAbs(f)
    ensures var req := Requested(cwd, appDir, d, f);
      && NormComps(req) == Fold(NormComps(ServedRoot(cwd, appDir, d)), SplitPath(f), true)
      && Clean(NormComps(req))
      && req == Slashes(Lead(appDir)) + JoinPath(NormComps(req))
  {
    var root := ServedRoot(cwd, appDir, d);
    RootShape(cwd, appDir, d);
    var x := Join(root, f);
    JoinRelative(root, f);
    NormPathIdempotent(x);
    NormPathAbs(x);
    NormPathAbs(NormPath(x));
  }

  /** The corrected check accepts exactly the requests that normalize to the root or
      to something below it. */
  lemma StrictIsContainment(cwd: string, appDir: string, d: string, f: string)
    requires IsAbs(appDir) && !IsAbs(f)
    ensures ValidateStaticPathStrict(cwd, appDir, d, f) <==>
      d in AllowedDirectories &&
      IsPrefix(NormComps(ServedRoot(cwd, appDir, d)), NormComps(Requested(cwd, appDir, d, f)))
  {
    if d in AllowedDirectories {
      AllowedAreSafe(d);
      RootShape(cwd, appDir, d);
      RequestedShape(cwd, appDir, d, f);
      WithinIffPrefix(Lead(appDir), NormComps(ServedRoot(cwd, appDir, d)),
                      NormComps(Requested(cwd, appDir, d, f)));
    }
  }

  /** Everything the corrected check accepts, the check as written accepts too. */
  lemma StrictImpliesAsWritten(cwd: string, appDir: string, d: string, f: string)
    requires IsAbs(appDir) && !IsAbs(f)
    requires ValidateStaticPathStrict(cwd, appDir, d, f)
    ensures ValidateStaticPath(cwd, appDir, d, f)
  {
    StrictIsContainment(cwd, appDir, d, f);
    AllowedAreSafe(d);
    RootShape(cwd, appDir, d);
    RequestedShape(cwd, appDir, d, f);
    PrefixOfContained(Lead(appDir), NormComps(ServedRoot(cwd, appDir, d)),
                      NormComps(Requested(cwd, appDir, d, f)));
  }

  /** A file name without `..` pieces always stays inside the root, and both checks
      accept it. */
  lemma PlainFilenameAccepted(cwd: string, appDir: string, d: string, f: string)
    requires IsAbs(appDir) && !IsAbs(f) && d in AllowedDirectories
    requires forall i :: 0 <= i < |SplitPath(f)| ==> SplitPath(f)[i] != ".."
    ensures ValidateStaticPathStrict(cwd, appDir, d, f)
    ensures ValidateStaticPath(cwd, appDir, d, f)
  {
    AllowedAreSafe(d);
    RequestedShape(cwd, appDir, d, f);
    FoldExtends(NormComps(ServedRoot(cwd, appDir, d)), SplitPath(f), true);
    StrictIsContainment(cwd, appDir, d, f);
    StrictImpliesAsWritten(cwd, appDir, d, f);
  }

  /** The request that climbs out of the root into its sibling `sib`. */
  function SiblingRequest(sib: string, x: string): string {
    ".." + [Sep] + sib + [Sep] + x
  }

  lemma SiblingRequestPieces(sib: string, x: string)
    requires SafeComponent(sib) && SafeComponent(x)
    ensures SplitPath(SiblingRequest(sib, x)) == ["..", sib, x]
    ensures !IsAbs(SiblingRequest(sib, x))
  {
    var pieces := ["..", sib, x];
    assert JoinPath(pieces) == SiblingRequest(sib, x) by {
      assert JoinPath(pieces[2..]) == x;
      assert JoinPath(pieces[1..]) == sib + [Sep] + x;
    }
    SplitJoinRoundTrip(pieces, Sep);
  }

  /** Where the sibling request lands: beside the root, not inside it. */
  lemma SiblingRequestComps(cwd: string, appDir: string, d: string, sib: string, x: string)
    requires IsAbs(appDir) && SafeComponent(d) && SafeComponent(sib) && SafeComponent(x)
    ensures var p := Parent(NormComps(appDir));
      && NormComps(ServedRoot(cwd, appDir, d)) == p + [d]
      && NormComps(Requested(cwd, appDir, d, SiblingRequest(sib, x))) == p + [sib, x]
  {
    var f := SiblingRequest(sib, x);
    SiblingRequestPieces(sib, x);
    RootShape(cwd, appDir, d);
    RequestedShape(cwd, appDir, d, f);
    var p := Parent(NormComps(appDir));
    assert Step(p + [d], "..", true) == p;
    FoldOrdinary(p, [sib, x], true);
  }

  /** The text comparison: when `d` is a prefix of `sib`, the root's text is a prefix
      of the sibling path's text. */
  lemma SiblingTextPrefix(n: nat, p: seq<string>, d: string, sib: string, x: string)
    requires 1 <= n <= 2 && IsPrefix(d, sib)
    ensures IsPrefix(Slashes(n) + JoinPath(p + [d]), Slashes(n) + JoinPath(p + [sib, x]))
  {
    var lead := Slashes(n);
    var tail := sib + [Sep] + x;
    assert JoinPath([sib, x]) == tail by {
      assert JoinPath([sib, x][1..]) == x;
    }
    assert IsPrefix(d, tail) by {
      assert tail[..|d|] == sib[..|d|];
    }
    if |p| == 0 {
      assert p + [d] == [d] && p + [sib, x] == [sib, x];
      PrefixCancel(lead, d, tail);
    } else {
      JoinAppend(p, [d], [Sep]);
      JoinAppend(p, [sib, x], [Sep]);
      var front := lead + JoinPath(p) + [Sep];
      assert lead + JoinPath(p + [d]) == front + d;
      assert lead + JoinPath(p + [sib, x]) == front + tail;
      PrefixCancel(front, d, tail);
    }
  }

  /** From the root `d`, `../sib/x` leads into the sibling directory `sib`. When
      `sib`'s name starts with `d`'s, the check as written accepts it, although the
      path is not inside the root, and the corrected check refuses it. */
  lemma SiblingAccepted(cwd: string, appDir: string, d: string, sib: string, x: string)
    requires IsAbs(appDir) && d in AllowedDirectories
    requires SafeComponent(sib) && SafeComponent(x) && sib != d && IsPrefix(d, sib)
    ensures ValidateStaticPath(cwd, appDir, d, SiblingRequest(sib, x))
    ensures !IsPrefix(NormComps(ServedRoot(cwd, appDir, d)),
                      NormComps(Requested(cwd, appDir, d, SiblingRequest(sib, x))))
    ensures !ValidateStaticPathStrict(cwd, appDir, d, SiblingRequest(sib, x))
  {
    var f := SiblingRequest(sib, x);
    AllowedAreSafe(d);
    SiblingRequestPieces(sib, x);
    SiblingRequestComps(cwd, appDir, d, sib, x);
    RootShape(cwd, appDir, d);
    RequestedShape(cwd, appDir, d, f);
    var p := Parent(NormComps(appDir));
    var rootComps, reqComps := p + [d], p + [sib, x];
    assert !IsPrefix(rootComps, reqComps);
    StrictIsContainment(cwd, appDir, d, f);
    SiblingTextPrefix(Lead(appDir), p, d, sib, x);
  }

  /** The `resume` route reaches into `resume_gen`: `../resume_gen/x` passes. */
  lemma ResumeRouteReachesResumeGen(cwd: string, appDir: string, x: string)
    requires IsAbs(appDir) && SafeComponent(x)
    ensures ValidateStaticPath(cwd, appDir, "resume", SiblingRequest("resume_gen", x))
    ensures !ValidateStaticPathStrict(cwd, appDir, "resume", SiblingRequest("resume_gen", x))
  {
    var d, sib := "resume", "resume_gen";
    assert IsPrefix(d, sib) by {
      assert sib[..|d|] == d;
    }
    assert SafeComponent(sib) by {
      assert NoSlash(sib);
    }
    SiblingAccepted(cwd, appDir, d, sib, x);
  }

  // ---------------------------------------------------------------------------
  // serve_static_file

  datatype Served = NotFound | SendFromDirectory(dir: string, name: string)

  /** Serving `basename(f)` from `join(root, dirname(f))` reaches the very file the
      check looked at. */
  lemma SplitServePath(cwd: string, appDir: string, d: string, f: string)
    ensures IsAbs(appDir) && !IsAbs(f) && d in AllowedDirectories ==>
      AbsPath(cwd, Join(Join(ServedRoot(cwd, appDir, d), Dirname(f)), Basename(f))) ==
      Requested(cwd, appDir, d, f)
  {
    if IsAbs(appDir) && !IsAbs(f) && d in AllowedDirectories {
      AllowedAreSafe(d);
      RootShape(cwd, appDir, d);
      JoinDirnameBasename(ServedRoot(cwd, appDir, d), f);
    }
  }

  /** `serve_static_file(directory, filename)`: a name with a directory part is checked
      a second time as `join(dirname, basename)` and served from that directory. */
  function ServeStaticFile(cwd: string, appDir: string, directory: string,
                           filename: string): (r: Served)
    ensures r.SendFromDirectory? ==> ValidateStaticPath(cwd, appDir, directory, filename)
    ensures r.SendFromDirectory? ==> NoSlash(r.name) || r.name == filename
    ensures IsAbs(appDir) && !IsAbs(filename) && r.SendFromDirectory? ==>
      AbsPath(cwd, Join(r.dir, r.name)) == Requested(cwd, appDir, directory, filename)
  {
    SplitServePath(cwd, appDir, directory, filename);
    if !ValidateStaticPath(cwd, appDir, directory, filename) then NotFound
    else
      var base := ServedRoot(cwd, appDir, directory);
      var subdir := Dirname(filename);
      if subdir != "" then
        var name := Basename(filename);
        if !ValidateStaticPath(cwd, appDir, directory, Join(subdir, name)) then NotFound
        else SendFromDirectory(Join(base, subdir), name)
      else SendFromDirectory(base, filename)
  }

  /** The second check gives the first one's answer: splitting off the directory part
      and joining it back changes nothing `normpath` can see. */
  lemma SecondCheckRedundant(cwd: string, appDir: string, d: string, f: string)
    requires IsAbs(appDir) && !IsAbs(f)
    ensures ValidateStaticPath(cwd, appDir, d, Join(Dirname(f), Basename(f))) ==
            ValidateStaticPath(cwd, appDir, d, f)
  {
    if d in AllowedDirectories {
      AllowedAreSafe(d);
      var g := Join(Dirname(f), Basename(f));
      DirnameBasename(f, NormComps(ServedRoot(cwd, appDir, d)), true);
      RequestedShape(cwd, appDir, d, f);
      RequestedShape(cwd, appDir, d, g);
    }
  }

  /** For a relative file name the route refuses exactly what the check refuses. */
  lemma ServeStaticFileIff(cwd: string, appDir: string, d: string, f: string)
    requires IsAbs(appDir) && !IsAbs(f)
    ensures ServeStaticFile(cwd, appDir, d, f).NotFound? <==> !ValidateStaticPath(cwd, appDir, d, f)
  {
    SecondCheckRedundant(cwd, appDir, d, f);
  }

  // ---------------------------------------------------------------------------
  // download_file

  datatype Download = SendFile(path: string, downloadName: string) | HttpError(status: int)

  /** `download_file(filename)` as written; `present` says which paths exist. Both
      `abort(404)` calls sit inside `try ... except Exception`, which turns the raised
      HTTP exception into `abort(500)`. */
  function DownloadFile(cwd: string, appDir: string, filename: string,
                        present: string -> bool): (r: Download)
    ensures r.SendFile? <==>
      IsPrefix(ServedRoot(cwd, appDir, DownloadDirectory),
               Requested(cwd, appDir, DownloadDirectory, filename)) &&
      present(Requested(cwd, appDir, DownloadDirectory, filename))
    ensures r.SendFile? ==>
      r.path == Requested(cwd, appDir, DownloadDirectory, filename) &&
      r.downloadName == Basename(filename)
    ensures r.SendFile? ==> NoSlash(r.downloadName)
    ensures r.HttpError? ==> r.status == 500
  {
    var base := ServedRoot(cwd, appDir, DownloadDirectory);
    var path := Requested(cwd, appDir, DownloadDirectory, filename);
    if !IsPrefix(base, path) then HttpError(500)
    else if !present(path) then HttpError(500)
    else SendFile(path, Basename(filename))
  }

  /** A missing file is reported as a server error, never as "not found". */
  lemma MissingDownloadIsServerError(cwd: string, appDir: string, filename: string,
                                     present: string -> bool)
    requires !present(Requested(cwd, appDir, DownloadDirectory, filename))
    ensures DownloadFile(cwd, appDir, filename, present) == HttpError(500)
  {
  }

  /** `download_file` with the containment test corrected and its 404 answers kept. */
  function DownloadFileFixed(cwd: string, appDir: string, filename: string,
                             present: string -> bool): (r: Download)
    ensures r.HttpError? ==> r.status == 404
    ensures r.SendFile? <==>
      Within(ServedRoot(cwd, appDir, DownloadDirectory),
             Requested(cwd, appDir, DownloadDirectory, filename)) &&
      present(Requested(cwd, appDir, DownloadDirectory, filename))
    ensures r.SendFile? ==>
      r.path == Requested(cwd, appDir, DownloadDirectory, filename) &&
      r.downloadName == Basename(filename)
  {
    var base := ServedRoot(cwd, appDir, DownloadDirectory);
    var path := Requested(cwd, appDir, DownloadDirectory, filename);
    if !Within(base, path) || !present(path) then HttpError(404)
    else SendFile(path, Basename(filename))
  }

  /** The corrected download serves only existing files inside `resume_gen`. */
  lemma DownloadFixedIsContainment(cwd: string, appDir: string, filename: string,
                                   present: string -> bool)
    requires IsAbs(appDir) && !IsAbs(filename)
    ensures DownloadFileFixed(cwd, appDir, filename, present).SendFile? <==>
      IsPrefix(NormComps(ServedRoot(cwd, appDir, DownloadDirectory)),
               NormComps(Requested(cwd, appDir, DownloadDirectory, filename))) &&
      present(Requested(cwd, appDir, DownloadDirectory, filename))
  {
    StrictIsContainment(cwd, appDir, DownloadDirectory, filename);
  }

  /** As written, a sibling such as `resume_gen_old` can be downloaded from. */
  lemma DownloadReachesSibling(cwd: string, appDir: string, sib: string, x: string,
                               present: string -> bool)
    requires IsAbs(appDir) && SafeComponent(sib) && SafeComponent(x)
    requires sib != DownloadDirectory && IsPrefix(DownloadDirectory, sib)
    requires present(Requested(cwd, appDir, DownloadDirectory, SiblingRequest(sib, x)))
    ensures var f := SiblingRequest(sib, x);
      && DownloadFile(cwd, appDir, f, present).SendFile?
      && !IsPrefix(NormComps(ServedRoot(cwd, appDir, DownloadDirectory)),
                   NormComps(Requested(cwd, appDir, DownloadDirectory, f)))
      && DownloadFileFixed(cwd, appDir, f, present) == HttpError(404)
  {
    SiblingAccepted(cwd, appDir, DownloadDirectory, sib, x);
  }
}
