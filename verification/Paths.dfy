/** Lexical path handling: Go's filepath.Clean, Join and Rel on Unix, and the
    containment checks built on them. */
module Paths {
  import opened Text

  const SEP := '/'

  predicate IsAbs(path: string) {
    HasPrefix(path, "/")
  }

  /** One component on top of a cleaned stack. */
  function Push(abs: bool, stack: seq<string>, part: string): seq<string> {
    if part == "" || part == "." then stack
    else if part == ".." then
      if stack != [] && stack[|stack| - 1] != ".." then stack[..|stack| - 1]
      else if abs then stack
      else stack + [".."]
    else stack + [part]
  }

  function Walk(abs: bool, stack: seq<string>, parts: seq<string>): seq<string> {
    if parts == [] then stack
    else Push(abs, Walk(abs, stack, parts[..|parts| - 1]), parts[|parts| - 1])
  }

  /** The components of the cleaned path. */
  function Parts(path: string): seq<string> {
    Walk(IsAbs(path), [], Split(path, SEP))
  }

  function Render(abs: bool, parts: seq<string>): string {
    if abs then "/" + Join(parts, SEP)
    else if parts == [] then "."
    else Join(parts, SEP)
  }

  /** filepath.Clean. */
  function Clean(path: string): string {
    Render(IsAbs(path), Parts(path))
  }

  /** filepath.Join of two elements: empty elements are ignored. */
  function JoinPath(a: string, b: string): string {
    if a == "" then (if b == "" then "" else Clean(b))
    else if b == "" then Clean(a)
    else Clean(a + "/" + b)
  }

  datatype Result = Ok(path: string) | Err

  function CommonPrefix(a: seq<string>, b: seq<string>): (k: nat)
    ensures k <= |a| && k <= |b| && a[..k] == b[..k]
    ensures k < |a| && k < |b| ==> a[k] != b[k]
  {
    if a != [] && b != [] && a[0] == b[0] then 1 + CommonPrefix(a[1..], b[1..]) else 0
  }

  function Ups(n: nat): (r: seq<string>)
    ensures |r| == n && forall i :: 0 <= i < n ==> r[i] == ".."
  {
    if n == 0 then [] else [".."] + Ups(n - 1)
  }

  /** filepath.Rel: up from what the base has beyond the common prefix, down to
      what the target has beyond it. */
  function Rel(base: string, target: string): Result {
    var b, t := Parts(base), Parts(target);
    var k := CommonPrefix(b, t);
    if IsAbs(base) != IsAbs(target) then Err
    else if k < |b| && b[k] == ".." then Err
    else Ok(Render(false, Ups(|b| - k) + t[k..]))
  }

  predicate IsContained(root: string, target: string) {
    var rel := Rel(root, target);
    rel.Ok? && rel.path != ".." && !HasPrefix(rel.path, "../")
  }

  // Laws of cleaning

  predicate Plain(part: string) {
    part != "" && part != "." && part != ".." && SEP !in part
  }

  lemma {:induction false} WalkAppend(abs: bool, stack: seq<string>, a: seq<string>, b: seq<string>)
    ensures Walk(abs, stack, a + b) == Walk(abs, Walk(abs, stack, a), b)
  {
    if b == [] {
      assert a + b == a;
    } else {
      WalkAppend(abs, stack, a, b[..|b| - 1]);
      assert (a + b)[..|a + b| - 1] == a + b[..|b| - 1];
    }
  }

  /** Plain components are simply stacked. */
  lemma {:induction false} WalkPlain(abs: bool, stack: seq<string>, parts: seq<string>)
    requires forall i :: 0 <= i < |parts| ==> Plain(parts[i])
    ensures Walk(abs, stack, parts) == stack + parts
  {
    if parts != [] {
      WalkPlain(abs, stack, parts[..|parts| - 1]);
    }
  }

  ghost predicate AllPlain(parts: seq<string>) {
    forall i :: 0 <= i < |parts| ==> Plain(parts[i])
  }

  /** An absolute walk from plain components stays plain: no ".." is left. */
  lemma {:induction false} AbsoluteStaysPlain(stack: seq<string>, parts: seq<string>)
    requires AllPlain(stack) && forall i :: 0 <= i < |parts| ==> SEP !in parts[i]
    ensures AllPlain(Walk(true, stack, parts))
  {
    if parts != [] {
      AbsoluteStaysPlain(stack, parts[..|parts| - 1]);
    }
  }

  lemma SplitPartsClean(path: string)
    ensures forall i :: 0 <= i < |Split(path, SEP)| ==> SEP !in Split(path, SEP)[i]
  {
    forall i | 0 <= i < |Split(path, SEP)|
      ensures SEP !in Split(path, SEP)[i]
    {
      PiecesAreClean(path, SEP, i);
    }
  }

  lemma AbsolutePartsPlain(path: string)
    requires IsAbs(path)
    ensures AllPlain(Parts(path))
  {
    SplitPartsClean(path);
    AbsoluteStaysPlain([], Split(path, SEP));
  }

  /** Reading back an absolute path built from plain components. */
  lemma RenderedParts(parts: seq<string>)
    requires AllPlain(parts)
    ensures IsAbs(Render(true, parts)) && Parts(Render(true, parts)) == parts
  {
    var path := Render(true, parts);
    assert path == "" + [SEP] + Join(parts, SEP);
    SplitConcat("", Join(parts, SEP), SEP);
    if parts == [] {
      assert Split(path, SEP) == ["", ""];
      assert ["", ""][..1] == [""] && [""][..0] == [];
    } else {
      SplitJoin(parts, SEP);
      WalkAppend(true, [], [""], parts);
      WalkPlain(true, [], parts);
      assert [""][..0] == [];
    }
  }

  /** Joining onto an absolute path walks on from its components. */
  lemma JoinedParts(a: string, b: string)
    requires IsAbs(a) && b != ""
    ensures IsAbs(JoinPath(a, b)) && Parts(JoinPath(a, b)) == Walk(true, Parts(a), Split(b, SEP))
    ensures JoinPath(a, b) == Render(true, Walk(true, Parts(a), Split(b, SEP)))
  {
    var whole := a + "/" + b;
    assert whole == a + [SEP] + b && whole[0] == SEP;
    SplitConcat(a, b, SEP);
    WalkAppend(true, [], Split(a, SEP), Split(b, SEP));
    AbsolutePartsPlain(whole);
    RenderedParts(Parts(whole));
  }

  // Containment

  /** A relative rendering starts by climbing exactly if its first component is "..". */
  lemma ClimbsIff(parts: seq<string>)
    requires forall i :: 0 <= i < |parts| ==> SEP !in parts[i]
    ensures var rel := Render(false, parts);
            rel == ".." || HasPrefix(rel, "../") <==> parts != [] && parts[0] == ".."
  {
    if parts != [] {
      SplitJoin(parts, SEP);
      FirstPieceIff(Render(false, parts), "..", SEP);
      assert ".." + [SEP] == "../";
    }
  }

  lemma {:induction false} WalkClean(abs: bool, stack: seq<string>, parts: seq<string>)
    requires forall i :: 0 <= i < |stack| ==> SEP !in stack[i]
    requires forall i :: 0 <= i < |parts| ==> SEP !in parts[i]
    ensures forall i :: 0 <= i < |Walk(abs, stack, parts)| ==> SEP !in Walk(abs, stack, parts)[i]
  {
    if parts != [] {
      WalkClean(abs, stack, parts[..|parts| - 1]);
    }
  }

  lemma PartsClean(path: string)
    ensures forall i :: 0 <= i < |Parts(path)| ==> SEP !in Parts(path)[i]
  {
    SplitPartsClean(path);
    WalkClean(IsAbs(path), [], Split(path, SEP));
  }

  /** The way up from the base and down to the target climbs unless it is all down. */
  lemma WayClimbsIff(b: seq<string>, t: seq<string>)
    requires forall i :: 0 <= i < |t| ==> SEP !in t[i]
    ensures var k := CommonPrefix(b, t);
            var rel := Render(false, Ups(|b| - k) + t[k..]);
            rel == ".." || HasPrefix(rel, "../") <==> k < |b| || (k < |t| && t[k] == "..")
  {
    var k := CommonPrefix(b, t);
    ClimbsIff(Ups(|b| - k) + t[k..]);
  }

  /** For any two paths, isContained holds exactly when both are absolute or both
      relative, the root's cleaned components are a prefix of the target's, and the
      target does not climb right behind them. */
  lemma ContainedIff(root: string, target: string)
    ensures var b, t := Parts(root), Parts(target);
            IsContained(root, target) <==>
            IsAbs(root) == IsAbs(target) && b <= t && !(|b| < |t| && t[|b|] == "..")
  {
    var b, t := Parts(root), Parts(target);
    var k := CommonPrefix(b, t);
    PartsClean(target);
    WayClimbsIff(b, t);
    assert k == |b| ==> b == t[..k];
    assert b <= t ==> k == |b|;
  }

  /** An absolute target never climbs, so for an absolute root only the prefix is left. */
  lemma AbsoluteContainedIff(root: string, target: string)
    requires IsAbs(root)
    ensures IsContained(root, target) <==> IsAbs(target) && Parts(root) <= Parts(target)
  {
    ContainedIff(root, target);
    if IsAbs(target) {
      AbsolutePartsPlain(target);
    }
  }

  // Site paths

  const SITES_ROOT := "/opt/ekilie/sites"

  function RootParts(): seq<string> {
    ["opt", "ekilie", "sites"]
  }

  predicate NameStart(c: char) {
    'a' <= c <= 'z' || '0' <= c <= '9'
  }

  /** ^[a-z0-9][a-z0-9-]{0,62}$ */
  predicate ValidSiteName(name: string) {
    && 1 <= |name| <= 63
    && NameStart(name[0])
    && forall i :: 1 <= i < |name| ==> NameStart(name[i]) || name[i] == '-'
  }

  /** siteDirPath. */
  function SiteDirPath(name: string): Result {
    if !ValidSiteName(name) then Err
    else
      var dir := JoinPath(SITES_ROOT, name);
      if !IsContained(SITES_ROOT, dir) then Err else Ok(dir)
  }

  /** siteRepoPath. */
  function SiteRepoPath(name: string): Result {
    match SiteDirPath(name)
    case Err => Err
    case Ok(dir) => Ok(JoinPath(dir, "current"))
  }

  /** resolveEnvPath from a given checkout directory. */
  function ResolveIn(repo: string, param: string): Result {
    var envPath := if param == "" then "." else param;
    if IsAbs(envPath) then Err
    else
      var envDir := if envPath != "." then JoinPath(repo, envPath) else repo;
      if !IsContained(repo, envDir) then Err else Ok(JoinPath(envDir, ".env"))
  }

  /** resolveEnvPath; a missing env_path parameter is the empty string. */
  function ResolveEnvPath(name: string, param: string): Result {
    match SiteRepoPath(name)
    case Err => Err
    case Ok(repo) => ResolveIn(repo, param)
  }

  lemma JoinTwo(a: string, b: string)
    ensures Join([a, b], SEP) == a + [SEP] + b
  {
    assert [a, b][1..] == [b];
  }

  lemma RootText()
    ensures Render(true, RootParts()) == SITES_ROOT
  {
    assert RootParts()[1..] == ["ekilie", "sites"];
    JoinTwo("ekilie", "sites");
    assert Join(RootParts(), SEP) == "opt" + [SEP] + ("ekilie" + [SEP] + "sites");
  }

  lemma RootPartsPlain()
    ensures AllPlain(RootParts())
  {
    assert Plain("opt") && Plain("ekilie") && Plain("sites");
  }

  lemma RootIsPlain()
    ensures IsAbs(SITES_ROOT) && SITES_ROOT == Render(true, RootParts())
    ensures AllPlain(RootParts()) && Parts(SITES_ROOT) == RootParts()
  {
    RootText();
    RootPartsPlain();
    RenderedParts(RootParts());
  }

  lemma ValidNamePlain(name: string)
    requires ValidSiteName(name)
    ensures Plain(name)
  {}

  /** A plain component below a plain absolute path. */
  lemma PlainChild(parts: seq<string>, child: string)
    requires AllPlain(parts) && Plain(child)
    ensures AllPlain(parts + [child])
    ensures JoinPath(Render(true, parts), child) == Render(true, parts + [child])
  {
    RenderedParts(parts);
    JoinedParts(Render(true, parts), child);
    SplitClean(child, SEP);
    WalkPlain(true, parts, [child]);
  }

  /** A valid site name is all siteDirPath asks for: its containment error is
      unreachable, and the directory is the root plus that one component. */
  lemma SiteDirNeverEscapes(name: string)
    ensures SiteDirPath(name).Ok? <==> ValidSiteName(name)
    ensures ValidSiteName(name) ==> SiteDirPath(name).path == Render(true, RootParts() + [name])
    ensures ValidSiteName(name) ==> AllPlain(RootParts() + [name])
  {
    if ValidSiteName(name) {
      RootIsPlain();
      ValidNamePlain(name);
      PlainChild(RootParts(), name);
      RenderedParts(RootParts() + [name]);
      AbsoluteContainedIff(SITES_ROOT, JoinPath(SITES_ROOT, name));
    }
  }

  function RepoParts(name: string): seq<string> {
    RootParts() + [name] + ["current"]
  }

  lemma RepoIsPlain(name: string)
    ensures SiteRepoPath(name).Ok? <==> ValidSiteName(name)
    ensures ValidSiteName(name) ==>
              SiteRepoPath(name).path == Render(true, RepoParts(name)) && AllPlain(RepoParts(name))
  {
    SiteDirNeverEscapes(name);
    if ValidSiteName(name) {
      PlainChild(RootParts() + [name], "current");
    }
  }

  /** Where env_path leads, component by component, starting in the checkout. */
  function EnvWalk(name: string, param: string): seq<string> {
    Walk(true, RepoParts(name), Split(param, SEP))
  }

  lemma StayingPut(base: seq<string>, param: string)
    requires param == "" || param == "."
    ensures Walk(true, base, Split(param, SEP)) == base
  {
    SplitClean(param, SEP);
    assert [param][..0] == [];
  }

  lemma ResolveInIff(base: seq<string>, param: string)
    requires AllPlain(base)
    ensures var end := Walk(true, base, Split(param, SEP));
            var r := ResolveIn(Render(true, base), param);
            && AllPlain(end)
            && (r.Ok? <==> !IsAbs(param) && base <= end)
            && (r.Ok? ==> r.path == Render(true, end + [".env"]))
  {
    var repo := Render(true, base);
    var end := Walk(true, base, Split(param, SEP));
    RenderedParts(base);
    SplitPartsClean(param);
    AbsoluteStaysPlain(base, Split(param, SEP));
    RenderedParts(end);
    if param == "" || param == "." {
      StayingPut(base, param);
    } else {
      JoinedParts(repo, param);
    }
    AbsoluteContainedIff(repo, Render(true, end));
    PlainChild(end, ".env");
  }

  /** resolveEnvPath accepts exactly the relative paths of valid sites whose walk
      ends inside the checkout, and answers with that place plus ".env". */
  lemma EnvPathAcceptedIff(name: string, param: string)
    ensures ResolveEnvPath(name, param).Ok? <==>
            ValidSiteName(name) && !IsAbs(param) && RepoParts(name) <= EnvWalk(name, param)
    ensures ResolveEnvPath(name, param).Ok? ==>
            && AllPlain(EnvWalk(name, param))
            && ResolveEnvPath(name, param).path == Render(true, EnvWalk(name, param) + [".env"])
  {
    RepoIsPlain(name);
    if ValidSiteName(name) {
      ResolveInIff(RepoParts(name), param);
    }
  }

  /** So every accepted answer extends the checkout by plain components only. */
  lemma EnvPathStaysInside(name: string, param: string) returns (below: seq<string>)
    requires ResolveEnvPath(name, param).Ok?
    ensures AllPlain(below)
    ensures Parts(ResolveEnvPath(name, param).path) == RepoParts(name) + below + [".env"]
  {
    EnvPathAcceptedIff(name, param);
    below := Suffix(RepoParts(name), EnvWalk(name, param));
    RenderedParts(RepoParts(name) + below + [".env"]);
  }

  lemma Suffix(base: seq<string>, whole: seq<string>) returns (below: seq<string>)
    requires base <= whole && AllPlain(whole)
    ensures base + below == whole && AllPlain(below) && AllPlain(whole + [".env"])
  {
    below := whole[|base|..];
  }

  /** A relative walk that ends without ".." never climbed, so from anywhere else
      it leads to the same place further down. */
  lemma {:induction false} NeverClimbed(base: seq<string>, parts: seq<string>)
    requires ".." !in Walk(false, [], parts)
    ensures Walk(true, base, parts) == base + Walk(false, [], parts)
  {
    if parts != [] {
      var last := |parts| - 1;
      var before := Walk(false, [], parts[..last]);
      assert Walk(false, [], parts) == Push(false, before, parts[last]);
      if ".." in before {
        ClimbStays(before, parts[last]);
      }
      NeverClimbed(base, parts[..last]);
      PushFurtherDown(base, before, parts[last]);
    }
  }

  /** A ".." on the stack is never taken off again. */
  lemma ClimbStays(stack: seq<string>, part: string)
    requires ".." in stack
    ensures ".." in Push(false, stack, part)
  {
    var i :| 0 <= i < |stack| && stack[i] == "..";
    assert Push(false, stack, part)[i] == "..";
  }

  lemma PushFurtherDown(base: seq<string>, stack: seq<string>, part: string)
    requires ".." !in stack && ".." !in Push(false, stack, part)
    ensures Push(true, base + stack, part) == base + Push(false, stack, part)
  {
    ClimbFromNothing();
  }

  lemma ClimbFromNothing()
    ensures ".." in Push(false, [], "..")
  {
    assert Push(false, [], "..")[0] == "..";
  }

  /** Every relative env_path that does not climb out of its own start is accepted. */
  lemma NonClimbingAccepted(name: string, param: string)
    requires ValidSiteName(name) && !IsAbs(param) && ".." !in Parts(param)
    ensures ResolveEnvPath(name, param) == Ok(Render(true, RepoParts(name) + Parts(param) + [".env"]))
  {
    NeverClimbed(RepoParts(name), Split(param, SEP));
    EnvPathAcceptedIff(name, param);
  }
}
