/**
 Measuring a tree before deleting it: a work list with a cap, against the
 recursive definitions of size and number of entries.
 */
module FilesystemWrite {
  import opened Wrappers

  const MAX_REMOVE_ENTRIES: nat := 20_000
  const U64_MAX: nat := 0xffff_ffff_ffff_ffff

  type u64 = x: nat | x <= U64_MAX

  /**
   A tree as `lstat` and `read_dir` show it; a symbolic link counts as a file.
   `Unknown` is an entry without readable metadata; an unlistable directory has
   metadata but cannot be read.
   */
  datatype Node =
    | File(len: u64)
    | Dir(len: u64, children: seq<Node>, listable: bool)
    | Unknown

  datatype IoError = IoError

  // ---- the definitions ----

  function Count(n: Node): (c: nat)
    ensures c > 0
  {
    match n
    case Dir(_, children, _) => 1 + CountAll(children)
    case _ => 1
  }

  function CountAll(ns: seq<Node>): nat {
    if ns == [] then 0 else Count(ns[0]) + CountAll(ns[1..])
  }

  function Size(n: Node): nat {
    match n
    case File(len) => len
    case Dir(len, children, _) => len + SizeAll(children)
    case Unknown => 0
  }

  function SizeAll(ns: seq<Node>): nat {
    if ns == [] then 0 else Size(ns[0]) + SizeAll(ns[1..])
  }

  predicate Readable(n: Node) {
    match n
    case File(_) => true
    case Dir(_, children, listable) => listable && ReadableAll(children)
    case Unknown => false
  }

  predicate ReadableAll(ns: seq<Node>) {
    ns == [] || (Readable(ns[0]) && ReadableAll(ns[1..]))
  }

  function Saturated(x: nat): u64 {
    if x > U64_MAX then U64_MAX else x
  }

  // ---- the work list ----

  predicate Dirs(stack: seq<Node>) {
    forall d <- stack :: d.Dir?
  }

  /** What is still to be counted below the directories of the work list. */
  function Below(stack: seq<Node>): nat
    requires Dirs(stack)
  {
    if stack == [] then 0 else CountAll(stack[|stack| - 1].children) + Below(stack[..|stack| - 1])
  }

  function BelowSize(stack: seq<Node>): nat
    requires Dirs(stack)
  {
    if stack == [] then 0 else SizeAll(stack[|stack| - 1].children) + BelowSize(stack[..|stack| - 1])
  }

  predicate BelowReadable(stack: seq<Node>)
    requires Dirs(stack)
  {
    stack == [] ||
    (stack[|stack| - 1].listable && ReadableAll(stack[|stack| - 1].children) && BelowReadable(stack[..|stack| - 1]))
  }

  lemma Push(stack: seq<Node>, d: Node)
    requires Dirs(stack) && d.Dir?
    ensures Below(stack + [d]) == CountAll(d.children) + Below(stack)
    ensures BelowSize(stack + [d]) == SizeAll(d.children) + BelowSize(stack)
    ensures BelowReadable(stack + [d]) == (Readable(d) && BelowReadable(stack))
  {
    assert (stack + [d])[..|stack|] == stack;
  }

  /**
   What has been counted and what is left add up to the whole tree.  `rest` are
   the entries of the current directory not yet looked at, `total` the bytes so
   far without saturation.
   */
  ghost predicate Accounts(root: Node, entries: nat, total: nat, rest: seq<Node>, stack: seq<Node>) {
    && Dirs(stack)
    && entries + CountAll(rest) + Below(stack) == Count(root)
    && total + SizeAll(rest) + BelowSize(stack) == Size(root)
    && (Readable(root) <==> ReadableAll(rest) && BelowReadable(stack))
  }

  /** Looking at the next entry of the current directory. */
  lemma NextEntry(root: Node, entries: nat, total: nat, rest: seq<Node>, stack: seq<Node>)
    requires Accounts(root, entries, total, rest, stack) && rest != []
    ensures entries + 1 <= Count(root)
    ensures match rest[0]
            case Unknown => !Readable(root)
            case File(len) => Accounts(root, entries + 1, total + len, rest[1..], stack)
            case Dir(len, _, _) => Accounts(root, entries + 1, total + len, rest[1..], stack + [rest[0]])
  {
    assert CountAll(rest) == Count(rest[0]) + CountAll(rest[1..]);
    assert SizeAll(rest) == Size(rest[0]) + SizeAll(rest[1..]);
    assert ReadableAll(rest) == (Readable(rest[0]) && ReadableAll(rest[1..]));
    if rest[0].Dir? {
      Push(stack, rest[0]);
    }
  }

  /** Taking the last directory off the work list. */
  lemma NextDirectory(root: Node, entries: nat, total: nat, stack: seq<Node>)
    requires Accounts(root, entries, total, [], stack) && stack != []
    ensures var dir, rest := stack[|stack| - 1], stack[..|stack| - 1];
            if dir.listable then Accounts(root, entries, total, dir.children, rest) else !Readable(root)
  {
  }

  /** How the loop over one directory ends; `stack` is the work list with its directories on top. */
  datatype Listed = Failed | OverCap | Pushed(stack: seq<Node>)

  lemma SaturatedAdds(total: nat, len: u64)
    ensures Saturated(Saturated(total) + len) == Saturated(total + len)
  {
  }

  /** The inner loop: the entries of one directory are counted and its directories put on the work list. */
  method MeasureEntries(ghost root: Node, items: seq<Node>, stack0: seq<Node>, bytes0: u64, entries0: nat,
                        ghost total0: nat)
      returns (next: Listed, bytes: u64, entries: nat, ghost total: nat)
    requires Accounts(root, entries0, total0, items, stack0)
    requires bytes0 == Saturated(total0) && entries0 <= MAX_REMOVE_ENTRIES
    ensures next.Failed? ==> !Readable(root)
    ensures next.OverCap? ==> entries == MAX_REMOVE_ENTRIES + 1 <= Count(root)
    ensures next.Pushed? ==>
              && Accounts(root, entries, total, [], next.stack)
              && bytes == Saturated(total) && entries <= MAX_REMOVE_ENTRIES
              && |next.stack| - entries <= |stack0| - entries0
  {
    var stack := stack0;
    bytes, entries, total := bytes0, entries0, total0;
    assert items[0..] == items;
    for n := 0 to |items|
      invariant Accounts(root, entries, total, items[n..], stack)
      invariant bytes == Saturated(total) && entries <= MAX_REMOVE_ENTRIES
      invariant |stack| - entries <= |stack0| - entries0
    {
      NextEntry(root, entries, total, items[n..], stack);
      var child := items[n];
      assert items[n..][0] == child && items[n..][1..] == items[n + 1..];
      entries := entries + 1;
      if entries > MAX_REMOVE_ENTRIES {
        return OverCap, bytes, entries, total;
      }
      if child.Unknown? {
        return Failed, bytes, entries, total;
      }
      SaturatedAdds(total, child.len);
      bytes := Saturated(bytes + child.len);
      total := total + child.len;
      if child.Dir? {
        stack := stack + [child];
      }
    }
    assert items[|items|..] == [];
    next := Pushed(stack);
  }

  /**
   `measure` is the recursive definition, as far as the cap lets it look: it is
   exact on a tree of at most 20000 entries and otherwise says 20001.  If
   anything that counts could not be read, it does not answer.
   */
  method Measure(root: Node) returns (r: Result<(u64, nat), IoError>)
    ensures Readable(root) ==> r.Ok?
    ensures r.Ok? && Count(root) <= MAX_REMOVE_ENTRIES ==>
              Readable(root) && r.value == (Saturated(Size(root)), Count(root))
    ensures r.Ok? && Count(root) > MAX_REMOVE_ENTRIES ==> r.value.1 == MAX_REMOVE_ENTRIES + 1
  {
    match root {
      case Unknown => return Err(IoError);
      case File(len) => return Ok((len, 1));
      case Dir(_, _, _) =>
    }
    var bytes: u64 := root.len;
    var entries := 1;
    var stack := [root];
    ghost var total: nat := root.len;
    Push([], root);
    assert [] + [root] == [root];
    while stack != []
      invariant Accounts(root, entries, total, [], stack)
      invariant bytes == Saturated(total) && entries <= MAX_REMOVE_ENTRIES
      decreases Count(root) - entries + |stack|
    {
      NextDirectory(root, entries, total, stack);
      var dir := stack[|stack| - 1];
      stack := stack[..|stack| - 1];
      if !dir.listable {
        return Err(IoError);
      }
      var next;
      next, bytes, entries, total := MeasureEntries(root, dir.children, stack, bytes, entries, total);
      match next {
        case Failed => return Err(IoError);
        case OverCap => return Ok((bytes, entries));
        case Pushed(more) => stack := more;
      }
    }
    return Ok((bytes, entries));
  }

  // ---- remove ----

  datatype Refusal = Unreadable | ProtectedRoot | NotEmpty(entries: nat) | TooMany | RemoveFailed | StillThere

  /** `count_entries`: never looks further than one beyond the cap. */
  method CountEntries(dir: Node) returns (r: Result<nat, IoError>)
    requires dir.Dir?
    ensures r.Ok? <==> dir.listable
    ensures r.Ok? ==> r.value == if |dir.children| <= MAX_REMOVE_ENTRIES then |dir.children| else MAX_REMOVE_ENTRIES + 1
  {
    if !dir.listable {
      return Err(IoError);
    }
    var count := 0;
    while count < |dir.children| && count < MAX_REMOVE_ENTRIES + 1
      invariant count <= |dir.children| && count <= MAX_REMOVE_ENTRIES + 1
    {
      count := count + 1;
    }
    return Ok(count);
  }

  /** The checks before a deletion, as a caller can foresee them. */
  predicate MayRemove(target: Node, isProtected: bool, recursive: bool) {
    && Readable(target) && !isProtected
    && (target.Dir? && !recursive ==> target.children == [])
    && Count(target) <= MAX_REMOVE_ENTRIES
  }

  /**
   `remove`: the deletion is attempted exactly on a target that passes the
   checks, so the cap stops exactly the oversized trees; what it reports as
   freed is the size of the tree.
   */
  method Remove(target: Node, isProtected: bool, recursive: bool, worked: bool, gone: bool)
    returns (r: Result<u64, Refusal>, attempted: bool)
    ensures attempted <==> MayRemove(target, isProtected, recursive)
    ensures r.Ok? <==> attempted && worked && gone
    ensures r.Ok? ==> r.value == Saturated(Size(target))
    ensures attempted ==> (!worked <==> r == Err(RemoveFailed)) && (worked && !gone <==> r == Err(StillThere))
    ensures r == Err(ProtectedRoot) <==> !target.Unknown? && isProtected
    ensures (exists n :: r == Err(NotEmpty(n))) <==>
              !isProtected && target.Dir? && !recursive && target.listable && target.children != []
    ensures target.Unknown? ==> r == Err(Unreadable)
    ensures Readable(target) && !isProtected && (target.Dir? && !recursive ==> target.children == []) ==>
              (r == Err(TooMany) <==> Count(target) > MAX_REMOVE_ENTRIES)
  {
    if target.Unknown? {
      return Err(Unreadable), false;
    }
    if isProtected {
      return Err(ProtectedRoot), false;
    }
    if !recursive && target.Dir? {
      var count := CountEntries(target);
      if count.Err? {
        return Err(Unreadable), false;
      }
      if count.value > 0 {
        return Err(NotEmpty(count.value)), false;
      }
    }
    var measured := Measure(target);
    if measured.Err? {
      return Err(Unreadable), false;
    }
    var (freed, entries) := measured.value;
    if entries > MAX_REMOVE_ENTRIES {
      return Err(TooMany), false;
    }
    if !worked {
      return Err(RemoveFailed), true;
    }
    if !gone {
      return Err(StillThere), true;
    }
    return Ok(freed), true;
  }
}
