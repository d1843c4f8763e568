/**
 The table of terminal tabs. `Store` is the table as a value together with the tabs that were
 closed and may still hear from their processes; `TerminalStore` is the class that keeps the list.
 */
module TerminalStore {
  import opened TerminalSession
  import Text
  import opened Wrappers

  datatype Store = Store(tabs: map<nat, Tab>, gone: map<nat, Tab>, issued: nat, disposed: bool, max: nat)

  datatype Event =
    | Create(program: string)
    | Close(key: nat, force: bool)
    | DisposeAll
    | On(key: nat, h: Happening)

  datatype CreateResult = Created(key: nat) | StoreDisposed | Limit(max: nat) | EmptyProgram

  datatype CloseResult = Closed | NeedsConfirm

  /** Nothing is left of it after `trim`. */
  predicate IsBlank(s: string) {
    forall c <- s :: Text.IsSpace(c)
  }

  predicate Killable(t: Tab) {
    t.status == Running || t.status == Starting
  }

  function Step(s: Store, e: Event): Store {
    match e
    case Create(program) =>
      if s.disposed || |s.tabs| >= s.max || IsBlank(program) then s
      else s.(issued := s.issued + 1, tabs := s.tabs[s.issued + 1 := Fresh(s.issued + 1)])
    case Close(key, force) =>
      if key !in s.tabs || (Killable(s.tabs[key]) && !force) then s
      else s.(tabs := s.tabs - {key}, gone := s.gone[key := Dispose(s.tabs[key])])
    case DisposeAll =>
      if s.disposed then s
      else s.(disposed := true, tabs := map[], gone := s.gone + DisposeEach(s.tabs))
    case On(key, h) =>
      if key in s.tabs then s.(tabs := s.tabs[key := React(s.tabs[key], h, true)])
      else if key in s.gone then s.(gone := s.gone[key := React(s.gone[key], h, false)])
      else s
  }

  function DisposeEach(tabs: map<nat, Tab>): map<nat, Tab> {
    map key <- tabs :: Dispose(tabs[key])
  }

  function After(s: Store, events: seq<Event>): Store {
    if events == [] then s else Step(After(s, events[..|events| - 1]), events[|events| - 1])
  }

  function Empty(max: nat): Store {
    Store(map[], map[], 0, false, max)
  }

  // ---- every run ----

  predicate TabsOk(tabs: map<nat, Tab>, issued: nat) {
    forall key <- tabs :: 1 <= key <= issued && tabs[key].key == key && TabOk(tabs[key])
  }

  predicate Inv(s: Store) {
    && |s.tabs| <= s.max
    && TabsOk(s.tabs, s.issued)
    && TabsOk(s.gone, s.issued)
    && s.tabs.Keys !! s.gone.Keys
    && (s.disposed ==> s.tabs == map[])
  }

  /** Every id handed out stays with its tab: in the table, or closed for good. */
  predicate Kept(s: Store, t: Store) {
    && s.issued <= t.issued && s.max == t.max
    && (s.disposed ==> t.disposed)
    && (forall key <- s.gone :: key in t.gone && TabLater(s.gone[key], t.gone[key]))
    && (forall key <- s.tabs ::
          || (key in t.tabs && TabLater(s.tabs[key], t.tabs[key]))
          || (key in t.gone && TabLater(s.tabs[key], t.gone[key])))
  }

  predicate NoneInvented(s: Store, t: Store) {
    && (forall key <- t.tabs :: key in s.tabs || key > s.issued)
    && (forall key <- t.gone :: key in s.tabs || key in s.gone || key > s.issued)
  }

  /** A good table that came from another. */
  predicate Grown(s: Store, t: Store) {
    Inv(t) && Kept(s, t) && NoneInvented(s, t)
  }

  /** The same tab, unless it is a later form of it. */
  lemma SameIsLater(tabs: map<nat, Tab>)
    ensures forall key <- tabs :: TabLater(tabs[key], tabs[key])
  {
  }

  lemma CreateInv(s: Store, program: string)
    requires Inv(s)
    ensures Inv(Step(s, Create(program)))
  {
    FreshTab(s.issued + 1);
  }

  lemma CreateKept(s: Store, program: string)
    requires Inv(s)
    ensures Kept(s, Step(s, Create(program)))
  {
    SameIsLater(s.tabs);
    SameIsLater(s.gone);
  }

  lemma CreateKeeps(s: Store, program: string)
    requires Inv(s)
    ensures Grown(s, Step(s, Create(program)))
  {
    CreateInv(s, program);
    CreateKept(s, program);
  }

  lemma CloseInv(s: Store, key: nat)
    requires Inv(s) && key in s.tabs
    ensures Inv(s.(tabs := s.tabs - {key}, gone := s.gone[key := Dispose(s.tabs[key])]))
  {
    DisposeKeeps(s.tabs[key]);
    assert (s.tabs - {key}).Keys == s.tabs.Keys - {key};
  }

  lemma CloseKeeps(s: Store, key: nat, force: bool)
    requires Inv(s)
    ensures Grown(s, Step(s, Close(key, force)))
  {
    SameIsLater(s.tabs);
    SameIsLater(s.gone);
    if key in s.tabs {
      CloseInv(s, key);
      DisposeKeeps(s.tabs[key]);
    }
  }

  lemma DisposeEachKeeps(tabs: map<nat, Tab>, issued: nat)
    requires TabsOk(tabs, issued)
    ensures TabsOk(DisposeEach(tabs), issued) && DisposeEach(tabs).Keys == tabs.Keys
    ensures forall key <- tabs :: TabLater(tabs[key], DisposeEach(tabs)[key])
  {
    forall key <- tabs
      ensures Keeps(tabs[key], Dispose(tabs[key]))
    {
      DisposeKeeps(tabs[key]);
    }
  }

  lemma MergeOk(a: map<nat, Tab>, b: map<nat, Tab>, issued: nat)
    requires TabsOk(a, issued) && TabsOk(b, issued)
    ensures TabsOk(a + b, issued)
  {
  }

  lemma DisposeAllInv(s: Store)
    requires Inv(s)
    ensures Inv(Step(s, DisposeAll))
  {
    DisposeEachKeeps(s.tabs, s.issued);
    MergeOk(s.gone, DisposeEach(s.tabs), s.issued);
  }

  lemma DisposeAllKept(s: Store)
    requires Inv(s)
    ensures Kept(s, Step(s, DisposeAll)) && NoneInvented(s, Step(s, DisposeAll))
  {
    SameIsLater(s.tabs);
    SameIsLater(s.gone);
    DisposeEachKeeps(s.tabs, s.issued);
  }

  lemma DisposeAllKeeps(s: Store)
    requires Inv(s)
    ensures Grown(s, Step(s, DisposeAll))
  {
    DisposeAllInv(s);
    DisposeAllKept(s);
  }

  lemma ListedChanges(s: Store, key: nat, u: Tab)
    requires Inv(s) && key in s.tabs && Keeps(s.tabs[key], u)
    ensures Grown(s, s.(tabs := s.tabs[key := u]))
  {
    assert s.tabs[key := u].Keys == s.tabs.Keys;
  }

  lemma GoneChanges(s: Store, key: nat, u: Tab)
    requires Inv(s) && key in s.gone && Keeps(s.gone[key], u)
    ensures Grown(s, s.(gone := s.gone[key := u]))
  {
    assert s.gone[key := u].Keys == s.gone.Keys;
  }

  lemma OnKeeps(s: Store, key: nat, h: Happening)
    requires Inv(s)
    ensures Grown(s, Step(s, On(key, h)))
  {
    if key in s.tabs {
      ReactKeeps(s.tabs[key], h, true);
      ListedChanges(s, key, React(s.tabs[key], h, true));
    } else if key in s.gone {
      ReactKeeps(s.gone[key], h, false);
      GoneChanges(s, key, React(s.gone[key], h, false));
    }
  }

  lemma StepKeeps(s: Store, e: Event)
    requires Inv(s)
    ensures Grown(s, Step(s, e))
  {
    match e {
      case Create(program) => CreateKeeps(s, program);
      case Close(key, force) => CloseKeeps(s, key, force);
      case DisposeAll => DisposeAllKeeps(s);
      case On(key, h) => OnKeeps(s, key, h);
    }
  }

  lemma KeptTransitive(s: Store, t: Store, u: Store)
    requires Kept(s, t) && Kept(t, u)
    ensures Kept(s, u)
  {
  }

  lemma {:induction false} RunKeeps(s: Store, events: seq<Event>)
    requires Inv(s)
    ensures Grown(s, After(s, events))
  {
    if events == [] {
    } else {
      var t := After(s, events[..|events| - 1]);
      RunKeeps(s, events[..|events| - 1]);
      StepKeeps(t, events[|events| - 1]);
      KeptTransitive(s, t, Step(t, events[|events| - 1]));
    }
  }

  /**
   In every reachable table: no more tabs than allowed, at most one `open` for any tab that ever
   was, and no tab ended whose session never started.
   */
  lemma EveryTable(max: nat, events: seq<Event>)
    ensures var s := After(Empty(max), events);
            && |s.tabs| <= max
            && (forall key <- s.tabs :: s.tabs[key].opens <= 1)
            && (forall key <- s.gone :: s.gone[key].opens <= 1 && key !in s.tabs)
            && (forall key <- s.tabs :: s.tabs[key].status in {Running, Exited, Stopped} ==> s.tabs[key].everStarted)
            && (forall key <- s.gone :: s.gone[key].status in {Running, Exited, Stopped} ==> s.gone[key].everStarted)
            && (s.disposed ==> s.tabs == map[])
  {
    RunKeeps(Empty(max), events);
  }

  lemma {:induction false} AfterBoth(s: Store, a: seq<Event>, b: seq<Event>)
    ensures After(s, a + b) == After(After(s, a), b)
    decreases |b|
  {
    if b == [] {
      assert a + b == a;
    } else {
      assert (a + b)[..|a + b| - 1] == a + b[..|b| - 1];
      AfterBoth(s, a, b[..|b| - 1]);
    }
  }

  /** The id of a closed tab is never in the table again, and a tab that is created gets an id no tab ever had. */
  lemma IdsAreNeverReused(max: nat, before: seq<Event>, later: seq<Event>)
    ensures var s, t := After(Empty(max), before), After(Empty(max), before + later);
            && (forall key <- s.gone :: key in t.gone && key !in t.tabs)
            && (forall key <- t.tabs :: key in s.tabs || (key !in s.gone && key > s.issued))
            && (forall key <- s.tabs :: key in t.tabs || key in t.gone)
  {
    AfterBoth(Empty(max), before, later);
    RunKeeps(Empty(max), before);
    RunKeeps(After(Empty(max), before), later);
  }

  // ---- the class ----

  lemma KeyStays(t: Tab, h: Happening)
    requires TabOk(t)
    ensures React(t, h, true).key == t.key
  {
    ReactKeeps(t, h, true);
  }

  lemma StepInv(s: Store, e: Event)
    requires Inv(s)
    ensures Inv(Step(s, e))
  {
    StepKeeps(s, e);
  }

  /** What a tab hears changes that tab only, in the table or among the closed ones. */
  lemma OnlyThatTab(s: Store, key: nat, h: Happening)
    ensures var t := Step(s, On(key, h));
            && t.tabs == (if key in s.tabs then s.tabs[key := React(s.tabs[key], h, true)] else s.tabs)
            && t.tabs.Keys == s.tabs.Keys && t.gone.Keys == s.gone.Keys
            && (forall other <- s.gone :: other != key ==> t.gone[other] == s.gone[other])
            && t.issued == s.issued && t.disposed == s.disposed
  {
  }

  class TerminalStore {
    const max: nat
    var entries: seq<Tab>
    var issued: nat
    var disposed: bool
    /** The table as a value, with the closed tabs that their sessions still refer to. */
    ghost var model: Store

    ghost predicate Valid()
      reads this
    {
      && Inv(model)
      && Lists(entries, model.tabs)
      && model.issued == issued && model.disposed == disposed && model.max == max
    }

    constructor (max: nat)
      ensures Valid() && model == Empty(max)
    {
      this.max := max;
      entries, issued, disposed := [], 0, false;
      model := Empty(max);
    }

    method FindIndex(key: nat) returns (at: Option<nat>)
      requires Valid()
      ensures at.Some? <==> key in model.tabs
      ensures at.Some? ==> at.value < |entries| && entries[at.value] == model.tabs[key]
    {
      var i := 0;
      while i < |entries|
        invariant i <= |entries| && forall j | 0 <= j < i :: entries[j].key != key
      {
        if entries[i].key == key {
          return Some(i);
        }
        i := i + 1;
      }
      if key in model.tabs {
        ListsAll(entries, model.tabs, key);
      }
      return None;
    }

    method CreateTab(program: string) returns (r: CreateResult)
      requires Valid()
      modifies this
      ensures Valid() && model == Step(old(model), Create(program))
      ensures r == if old(model).disposed then StoreDisposed
                   else if |old(model).tabs| >= max then Limit(max)
                   else if IsBlank(program) then EmptyProgram
                   else Created(old(model).issued + 1)
      // A new tab waits, the others are as they were; a refused one changes nothing.
      ensures r.Created? ==>
                && r.key !in old(model).tabs && model.tabs == old(model).tabs[r.key := model.tabs[r.key]]
                && model.tabs[r.key].status == Starting && model.tabs[r.key].opens == 0
      ensures !r.Created? ==> model == old(model)
    {
      StepInv(model, Create(program));
      if disposed {
        return StoreDisposed;
      }
      if |entries| >= max {
        return Limit(max);
      }
      if IsBlank(program) {
        return EmptyProgram;
      }
      issued := issued + 1;
      entries := entries + [Fresh(issued)];
      model := Step(model, Create(program));
      return Created(issued);
    }

    method CloseTab(key: nat, force: bool) returns (r: CloseResult)
      requires Valid()
      modifies this
      ensures Valid() && model == Step(old(model), Close(key, force))
      ensures r == NeedsConfirm <==>
                key in old(model).tabs && old(model).tabs[key].status in {Running, Starting} && !force
      ensures r == NeedsConfirm ==> model == old(model)
      ensures r == Closed ==> model.tabs == old(model).tabs - {key}
      ensures r == Closed && key in old(model).tabs ==> key in model.gone && model.gone[key].disposed
    {
      StepInv(model, Close(key, force));
      var at := FindIndex(key);
      if at == None {
        return Closed;
      }
      if Killable(entries[at.value]) && !force {
        return NeedsConfirm;
      }
      ListsWithout(entries, model.tabs, at.value);
      entries := entries[..at.value] + entries[at.value + 1..];
      model := Step(model, Close(key, force));
      return Closed;
    }

    method DisposeAllTabs()
      requires Valid()
      modifies this
      ensures Valid() && model == Step(old(model), DisposeAll)
      ensures disposed && model.tabs == map[]
      ensures !old(disposed) ==> forall key <- old(model).tabs :: key in model.gone && model.gone[key].disposed
    {
      StepInv(model, DisposeAll);
      if disposed {
        return;
      }
      disposed := true;
      entries := [];
      model := Step(model, DisposeAll);
    }

    /** A call, or something the session hears, for one tab. */
    method Happens(key: nat, h: Happening)
      requires Valid()
      modifies this
      ensures Valid() && model == Step(old(model), On(key, h))
    {
      StepInv(model, On(key, h));
      var at := FindIndex(key);
      if at.Some? {
        KeyStays(entries[at.value], h);
        entries := entries[at.value := React(entries[at.value], h, true)];
      }
      model := Step(model, On(key, h));
    }
  }

  /** The list holds exactly the tabs of the map, oldest first. */
  ghost predicate Lists(entries: seq<Tab>, tabs: map<nat, Tab>) {
    && |entries| == |tabs|
    && (forall i | 0 <= i < |entries| :: entries[i].key in tabs && tabs[entries[i].key] == entries[i])
    && (forall i, j | 0 <= i < j < |entries| :: entries[i].key < entries[j].key)
  }

  lemma {:induction false} ListsAll(entries: seq<Tab>, tabs: map<nat, Tab>, key: nat)
    requires Lists(entries, tabs) && key in tabs
    ensures exists i :: 0 <= i < |entries| && entries[i].key == key
  {
    if entries == [] {
      assert false;
    } else {
      var last := entries[|entries| - 1];
      if last.key != key {
        ListsWithout(entries, tabs, |entries| - 1);
        assert entries[..|entries| - 1] + entries[|entries|..] == entries[..|entries| - 1];
        ListsAll(entries[..|entries| - 1], tabs - {last.key}, key);
      }
    }
  }

  lemma ListsWithout(entries: seq<Tab>, tabs: map<nat, Tab>, at: nat)
    requires Lists(entries, tabs) && at < |entries|
    ensures Lists(entries[..at] + entries[at + 1..], tabs - {entries[at].key})
  {
    assert (tabs - {entries[at].key}).Keys == tabs.Keys - {entries[at].key};
  }
}
