/**
 The two path normalisers: the one of the device file page, which refuses a
 path that climbs above the root, and the one of the agent, which stops there.
 Both decide whether a path may be written by looking for an allowed root.
 */
module DevicePaths {
  import opened Text
  import opened Wrappers

  /** The segments of a path, in order, as `split("/")` yields them. */
  function Segments(path: string): seq<string> {
    Split(path, '/')
  }

  predicate Skipped(s: string) {
    s == "" || s == "."
  }

  /** A clean segment list: nothing a normaliser would still remove. */
  predicate Clean(parts: seq<string>) {
    forall p <- parts :: p != "" && p != "." && p != ".." && '/' !in p
  }

  /** The path with these segments. */
  function Render(parts: seq<string>): string {
    "/" + Join(parts, '/')
  }

  // ---- the two walks ----

  /** The walk of the file page: None when `..` meets an empty stack. */
  function Walk(segs: seq<string>, stack: seq<string>): Option<seq<string>> {
    if segs == [] then Some(stack)
    else if Skipped(segs[0]) then Walk(segs[1..], stack)
    else if segs[0] == ".." then
      if stack == [] then None else Walk(segs[1..], stack[..|stack| - 1])
    else Walk(segs[1..], stack + [segs[0]])
  }

  /** The walk of the agent: `..` at the root stays at the root. */
  function WalkClamped(segs: seq<string>, stack: seq<string>): seq<string> {
    if segs == [] then stack
    else if Skipped(segs[0]) then WalkClamped(segs[1..], stack)
    else if segs[0] == ".." then WalkClamped(segs[1..], if stack == [] then [] else stack[..|stack| - 1])
    else WalkClamped(segs[1..], stack + [segs[0]])
  }

  /** The stack after one segment, at the root none less. */
  function After(stack: seq<string>, seg: string): seq<string> {
    if Skipped(seg) then stack
    else if seg == ".." then if stack == [] then [] else stack[..|stack| - 1]
    else stack + [seg]
  }

  function NormalSegments(path: string): Option<seq<string>> {
    Walk(Segments(path), [])
  }

  function AgentSegments(path: string): seq<string> {
    WalkClamped(Segments(path), [])
  }

  /** How deep below the root the segments lead, counting `..` as one up. */
  function Depth(segs: seq<string>): int {
    if segs == [] then 0
    else
      var last := segs[|segs| - 1];
      Depth(segs[..|segs| - 1]) + if Skipped(last) then 0 else if last == ".." then -1 else 1
  }

  // ---- the operations ----

  method NormalizeDevicePath(path: string) returns (r: Option<string>)
    ensures r == match NormalSegments(path) { case None => None case Some(parts) => Some(Render(parts)) }
  {
    var stack: seq<string> := [];
    var segs := Segments(path);
    assert segs[0..] == segs;
    for n := 0 to |segs|
      invariant Walk(segs, []) == Walk(segs[n..], stack)
    {
      var seg := segs[n];
      assert segs[n..][0] == seg && segs[n..][1..] == segs[n + 1..];
      if Skipped(seg) {
        continue;
      }
      if seg == ".." {
        if stack == [] {
          return None;
        }
        stack := stack[..|stack| - 1];
        continue;
      }
      stack := stack + [seg];
    }
    return Some("/" + Join(stack, '/'));
  }

  /** What `Path::components` yields for an absolute path. */
  datatype Component = RootDir | ParentDir | Normal(name: string)

  function Components(segs: seq<string>): seq<Component> {
    if segs == [] then []
    else if Skipped(segs[0]) then Components(segs[1..])
    else [if segs[0] == ".." then ParentDir else Normal(segs[0])] + Components(segs[1..])
  }

  function WalkComponents(cs: seq<Component>, stack: seq<string>): seq<string> {
    if cs == [] then stack
    else match cs[0]
      case RootDir => WalkComponents(cs[1..], stack)
      case ParentDir => WalkComponents(cs[1..], if stack == [] then [] else stack[..|stack| - 1])
      case Normal(name) => WalkComponents(cs[1..], stack + [name])
  }

  lemma {:induction false} ComponentsWalk(segs: seq<string>, stack: seq<string>)
    ensures WalkComponents(Components(segs), stack) == WalkClamped(segs, stack)
    decreases |segs|
  {
    if segs != [] {
      var next := After(stack, segs[0]);
      ComponentsWalk(segs[1..], next);
      if !Skipped(segs[0]) {
        assert Components(segs)[1..] == Components(segs[1..]);
      }
    }
  }

  method NormalizeLexically(path: string) returns (parts: seq<string>)
    ensures parts == AgentSegments(path)
  {
    parts := [];
    var components := [RootDir] + Components(Segments(path));
    ComponentsWalk(Segments(path), []);
    assert components[1..] == Components(Segments(path)) && components[0..] == components;
    for n := 0 to |components|
      invariant WalkComponents(components, []) == WalkComponents(components[n..], parts)
    {
      assert components[n..][0] == components[n] && components[n..][1..] == components[n + 1..];
      match components[n] {
        case RootDir =>
        case ParentDir =>
          if parts != [] {
            parts := parts[..|parts| - 1];
          }
        case Normal(name) => parts := parts + [name];
      }
    }
  }

  // ---- they agree ----

  lemma {:induction false} WalkAgrees(segs: seq<string>, stack: seq<string>)
    ensures Walk(segs, stack).Some? ==> Walk(segs, stack).value == WalkClamped(segs, stack)
    decreases |segs|
  {
    if segs != [] {
      if Skipped(segs[0]) {
        WalkAgrees(segs[1..], stack);
      } else if segs[0] != ".." {
        WalkAgrees(segs[1..], stack + [segs[0]]);
      } else if stack != [] {
        WalkAgrees(segs[1..], stack[..|stack| - 1]);
      }
    }
  }

  lemma {:induction false} WalkIsClean(segs: seq<string>, stack: seq<string>)
    requires Clean(stack) && forall s <- segs :: '/' !in s
    ensures Clean(WalkClamped(segs, stack))
    decreases |segs|
  {
    if segs != [] {
      var next := After(stack, segs[0]);
      assert segs[0] in segs;
      WalkIsClean(segs[1..], next);
    }
  }

  /** Where the file page has an answer at all, it is the agent's, segment by segment, and it is clean. */
  lemma NormalisersAgree(path: string)
    requires NormalSegments(path).Some?
    ensures NormalSegments(path).value == AgentSegments(path) && Clean(AgentSegments(path))
  {
    WalkAgrees(Segments(path), []);
    SplitPieces(path, '/');
    WalkIsClean(Segments(path), []);
  }

  lemma {:induction false} WalkFails(segs: seq<string>, stack: seq<string>)
    ensures Walk(segs, stack).None? <==> exists n: nat | n <= |segs| :: |stack| + Depth(segs[..n]) < 0
    decreases |segs|
  {
    if segs == [] {
      assert forall n: nat | n <= 0 :: Depth(segs[..n]) == 0;
    } else {
      var step := if Skipped(segs[0]) then 0 else if segs[0] == ".." then -1 else 1;
      forall n: nat | 0 < n <= |segs|
        ensures Depth(segs[..n]) == step + Depth(segs[1..][..n - 1])
      {
        DepthFirst(segs[..n]);
        assert segs[..n][1..] == segs[1..][..n - 1];
      }
      assert Depth(segs[..0]) == 0 && Depth(segs[1..][..0]) == 0;
      if |stack| + step < 0 {
        assert |stack| + Depth(segs[..1]) < 0;
      } else {
        var next := if step == 0 then stack else if step < 0 then stack[..|stack| - 1] else stack + [segs[0]];
        WalkFails(segs[1..], next);
        if Walk(segs, stack).None? {
          var n: nat :| n <= |segs[1..]| && |next| + Depth(segs[1..][..n]) < 0;
          assert segs[1..][..n] == segs[1..][..(n + 1) - 1];
          assert |stack| + Depth(segs[..n + 1]) < 0;
        }
      }
    }
  }

  lemma {:induction false} DepthFirst(segs: seq<string>)
    requires segs != []
    ensures Depth(segs) == (if Skipped(segs[0]) then 0 else if segs[0] == ".." then -1 else 1) + Depth(segs[1..])
    decreases |segs|
  {
    if |segs| > 1 {
      var front := segs[..|segs| - 1];
      DepthFirst(front);
      assert segs[1..][..|segs| - 2] == front[1..];
    } else {
      assert segs[..0] == [] && segs[1..] == [];
    }
  }

  /** The file page refuses to normalise exactly the paths that at some point lead above the root. */
  lemma RefusesExactlyEscapes(path: string)
    ensures NormalSegments(path).None? <==>
              exists n: nat | n <= |Segments(path)| :: Depth(Segments(path)[..n]) < 0
  {
    WalkFails(Segments(path), []);
  }

  /** What a normaliser removes: an empty segment and a dot anywhere ... */
  lemma {:induction false} DotVanishes(a: seq<string>, s: string, b: seq<string>, stack: seq<string>)
    requires s == "" || s == "."
    ensures Walk(a + [s] + b, stack) == Walk(a + b, stack)
    ensures WalkClamped(a + [s] + b, stack) == WalkClamped(a + b, stack)
    decreases |a|
  {
    if a == [] {
      assert ([s] + b)[1..] == b && a + [s] + b == [s] + b && a + b == b;
    } else {
      assert (a + [s] + b)[1..] == a[1..] + [s] + b && (a + b)[1..] == a[1..] + b;
      DotVanishes(a[1..], s, b, After(stack, a[0]));
      DotVanishes(a[1..], s, b, stack);
    }
  }

  /** ... and a name together with the `..` behind it. */
  lemma {:induction false} UpCancels(a: seq<string>, name: string, b: seq<string>, stack: seq<string>)
    requires name != "" && name != "." && name != ".."
    ensures Walk(a + [name, ".."] + b, stack) == Walk(a + b, stack)
    ensures WalkClamped(a + [name, ".."] + b, stack) == WalkClamped(a + b, stack)
    decreases |a|
  {
    var all := a + [name, ".."] + b;
    if a == [] {
      assert all[1..] == [".."] + b && ([".."] + b)[1..] == b && a + b == b;
      assert (stack + [name])[..|stack + [name]| - 1] == stack;
    } else {
      assert all[1..] == a[1..] + [name, ".."] + b && (a + b)[1..] == a[1..] + b;
      UpCancels(a[1..], name, b, After(stack, a[0]));
      UpCancels(a[1..], name, b, stack);
    }
  }

  // ---- the result is normal ----

  lemma {:induction false} WalkCleanIsIdentity(parts: seq<string>, stack: seq<string>)
    requires Clean(parts)
    ensures Walk(parts, stack) == Some(stack + parts)
    decreases |parts|
  {
    if parts == [] {
      assert stack + parts == stack;
    } else {
      assert parts[0] in parts;
      WalkCleanIsIdentity(parts[1..], stack + [parts[0]]);
      assert (stack + [parts[0]]) + parts[1..] == stack + parts;
    }
  }

  lemma SegmentsOfRender(parts: seq<string>)
    requires Clean(parts)
    ensures Segments(Render(parts)) == [""] + if parts == [] then [""] else parts
  {
    assert Render(parts) == "" + ['/'] + Join(parts, '/');
    SplitFirst("", Join(parts, '/'), '/');
    if parts != [] { SplitJoin(parts, '/'); }
  }

  /** Normalising twice is normalising once. */
  lemma NormalFormIsFixed(path: string)
    requires NormalSegments(path).Some?
    ensures NormalSegments(Render(NormalSegments(path).value)) == NormalSegments(path)
  {
    var parts := NormalSegments(path).value;
    NormalisersAgree(path);
    RenderIsNormal(parts);
  }

  lemma RenderIsNormal(parts: seq<string>)
    requires Clean(parts)
    ensures NormalSegments(Render(parts)) == Some(parts)
  {
    SegmentsOfRender(parts);
    var segs := Segments(Render(parts));
    if parts == [] {
      assert segs[1..] == [""] && [""][1..] == [];
      assert Walk([""], []) == Walk([], []);
    } else {
      assert segs[1..] == parts;
      WalkCleanIsIdentity(parts, []);
      assert [] + parts == parts;
    }
  }

  // ---- confinement ----

  /** The string test of the file page. */
  predicate StringTest(clean: string, root: string) {
    clean == root || root + "/" <= clean
  }

  lemma {:induction false} JoinPrefix(root: seq<string>, parts: seq<string>)
    requires root != [] && Clean(root) && Clean(parts)
    ensures root <= parts && |root| < |parts| ==> Join(root, '/') + "/" <= Join(parts, '/')
    ensures Join(root, '/') + "/" <= Join(parts, '/') ==> root <= parts && |root| < |parts|
    decreases |root|
  {
    var a, b := Join(root, '/'), Join(parts, '/');
    if root <= parts && |root| < |parts| {
      JoinAppend(root, parts[|root|..]);
      assert root + parts[|root|..] == parts;
    }
    if parts != [] && a + "/" <= b {
      assert b == a + "/" + b[|a| + 1..];
      SplitJoin(root, '/');
      SplitJoin(parts, '/');
      SplitConcat(a, b[|a| + 1..]);
    }
  }

  lemma {:induction false} JoinAppend(root: seq<string>, more: seq<string>)
    requires root != [] && more != []
    ensures Join(root + more, '/') == Join(root, '/') + "/" + Join(more, '/')
    decreases |root|
  {
    if |root| == 1 {
      assert (root + more)[1..] == more;
    } else {
      JoinAppend(root[1..], more);
      assert (root + more)[1..] == root[1..] + more;
    }
  }

  lemma {:induction false} SplitConcat(a: string, b: string)
    ensures Split(a + "/" + b, '/') == Split(a, '/') + Split(b, '/')
    decreases |a|
  {
    var s := a + "/" + b;
    if a == "" {
      assert s[1..] == b;
    } else {
      assert s[1..] == a[1..] + "/" + b;
      SplitConcat(a[1..], b);
    }
  }

  lemma JoinNonEmpty(parts: seq<string>)
    requires Clean(parts) && parts != []
    ensures Join(parts, '/') != ""
  {
    assert parts[0] in parts;
  }

  lemma JoinInjective(a: seq<string>, b: seq<string>)
    requires Clean(a) && Clean(b) && Join(a, '/') == Join(b, '/')
    ensures a == b
  {
    if a != [] {
      JoinNonEmpty(a);
      SplitJoin(a, '/');
    }
    if b != [] {
      JoinNonEmpty(b);
      SplitJoin(b, '/');
    }
  }

  /** On normal paths the string test is the segment-wise prefix test that `Path::starts_with` performs. */
  lemma StringTestIsPrefix(parts: seq<string>, root: seq<string>)
    requires Clean(parts) && Clean(root) && root != []
    ensures StringTest(Render(parts), Render(root)) <==> root <= parts
  {
    JoinPrefix(root, parts);
    var a, b := Join(root, '/'), Join(parts, '/');
    assert Render(root) + "/" == "/" + (a + "/");
    assert Render(root) + "/" <= Render(parts) <==> a + "/" <= b by {
      if Render(root) + "/" <= Render(parts) {
        assert Render(parts)[1..] == b && (Render(root) + "/")[1..] == a + "/";
      }
    }
    if Render(parts) == Render(root) {
      assert Render(parts)[1..] == b && Render(root)[1..] == a;
      JoinInjective(parts, root);
    }
    if root <= parts && |root| == |parts| {
      assert root == parts;
    }
  }

  // ---- who may be written ----

  datatype WriteDenial = NotAbsolute | EscapesRoot | Outside

  const WRITABLE_ROOTS: seq<seq<string>> := [["data", "local", "tmp"], ["sdcard"], ["storage", "emulated", "0"]]

  method WriteDenied(path: string, roots: seq<seq<string>>) returns (r: Option<WriteDenial>)
    requires forall root <- roots :: Clean(root) && root != []
    ensures r == Some(NotAbsolute) <==> !("/" <= path)
    ensures r == Some(EscapesRoot) <==> "/" <= path && NormalSegments(path).None?
    ensures r == None <==> "/" <= path && NormalSegments(path).Some? && AgentAllows(AgentSegments(path), roots)
  {
    if !("/" <= path) {
      return Some(NotAbsolute);
    }
    var clean := NormalizeDevicePath(path);
    if clean.None? {
      return Some(EscapesRoot);
    }
    NormalisersAgree(path);
    var parts := NormalSegments(path).value;
    for n := 0 to |roots|
      invariant forall i | 0 <= i < n :: !(roots[i] <= parts)
    {
      var root := Render(roots[n]);
      StringTestIsPrefix(parts, roots[n]);
      if clean.value == root || root + "/" <= clean.value {
        return None;
      }
    }
    return Some(Outside);
  }

  /** The agent's lexical check of a normalised path: some allowed root is a prefix, segment by segment. */
  predicate AgentAllows(parts: seq<string>, roots: seq<seq<string>>) {
    exists n | 0 <= n < |roots| :: roots[n] <= parts
  }

  lemma RootsAreClean()
    ensures forall root <- WRITABLE_ROOTS :: Clean(root) && root != []
  {
    forall root <- WRITABLE_ROOTS
      ensures Clean(root)
    {
      forall p <- root
        ensures p != "" && p != "." && p != ".." && '/' !in p
      {
        assert p in {"data", "local", "tmp", "sdcard", "storage", "emulated", "0"};
      }
    }
  }

  // ---- the desktop side of the file page ----

  /** The desktop's own normaliser: a second loop, with an error instead of null. */
  method NormalizeOnDesktop(path: string) returns (r: Result<string, WriteDenial>)
    ensures r == match NormalSegments(path) { case None => Err(EscapesRoot) case Some(parts) => Ok(Render(parts)) }
  {
    var stack: seq<string> := [];
    var segs := Segments(path);
    assert segs[0..] == segs;
    for n := 0 to |segs|
      invariant Walk(segs, []) == Walk(segs[n..], stack)
    {
      var seg := segs[n];
      assert segs[n..][0] == seg && segs[n..][1..] == segs[n + 1..];
      if seg == ".." {
        if stack == [] {
          return Err(EscapesRoot);
        }
        stack := stack[..|stack| - 1];
      } else if !Skipped(seg) {
        stack := stack + [seg];
      }
    }
    return Ok("/" + Join(stack, '/'));
  }

  /** `check_writable` of the desktop, which is what is enforced. */
  method CheckWritableOnDesktop(path: string) returns (r: Result<string, WriteDenial>)
    ensures r == Err(NotAbsolute) <==> !("/" <= path)
    ensures r == Err(EscapesRoot) <==> "/" <= path && NormalSegments(path).None?
    ensures r.Ok? <==> "/" <= path && NormalSegments(path).Some? && AgentAllows(AgentSegments(path), WRITABLE_ROOTS)
    ensures r.Ok? ==> r.value == Render(NormalSegments(path).value)
  {
    if !("/" <= path) {
      return Err(NotAbsolute);
    }
    var clean := NormalizeOnDesktop(path);
    if clean.Err? {
      return clean;
    }
    RootsAreClean();
    NormalisersAgree(path);
    var parts := NormalSegments(path).value;
    for n := 0 to |WRITABLE_ROOTS|
      invariant forall i | 0 <= i < n :: !(WRITABLE_ROOTS[i] <= parts)
    {
      var root := Render(WRITABLE_ROOTS[n]);
      StringTestIsPrefix(parts, WRITABLE_ROOTS[n]);
      if clean.value == root || root + "/" <= clean.value {
        return clean;
      }
    }
    return Err(Outside);
  }

  /** The page offers a change exactly when the desktop allows it, and for the same reason refuses it. */
  method PageAndDesktop(path: string) returns (page: Option<WriteDenial>, desktop: Result<string, WriteDenial>)
    ensures page == match desktop { case Ok(_) => None case Err(reason) => Some(reason) }
  {
    RootsAreClean();
    page := WriteDenied(path, WRITABLE_ROOTS);
    desktop := CheckWritableOnDesktop(path);
    if desktop.Err? && desktop.error.Outside? {
      assert page.Some? && page != Some(NotAbsolute) && page != Some(EscapesRoot);
      assert page.value.Outside?;
    }
  }

  lemma SegmentsOfEscape(name: string)
    requires '/' !in name
    ensures Segments("/" + ".." + "/" + name) == ["", "..", name]
  {
    SplitFirst("", ".." + "/" + name, '/');
    assert "/" + ".." + "/" + name == "" + ['/'] + (".." + "/" + name);
    SplitFirst("..", name, '/');
    SplitOne(name, '/');
  }

  /** The two sides differ on a path that climbs above the root: refused here, stopped at the root there. */
  lemma EscapeIsClampedByAgent(name: string)
    requires Clean([name])
    ensures NormalSegments("/" + ".." + "/" + name).None?
    ensures AgentSegments("/" + ".." + "/" + name) == [name]
  {
    SegmentsOfEscape(name);
    var segs, up, down := ["", "..", name], ["..", name], [name];
    assert segs[1..] == up && up[1..] == down && down[1..] == [];
    assert name in [name];
    assert Walk(segs, []) == Walk(up, []);
    assert WalkClamped(down, []) == WalkClamped([], [name]);
    assert WalkClamped(segs, []) == WalkClamped(up, []);
  }
}
