/** The index of stored media files: three maps that stay each other's inverses. */
module MediaStore {
  import opened Text

  type Ref = string
  type Scope = string

  datatype Meta = Meta(filename: string, contentType: string, source: string)

  datatype Entry = Entry(path: string, meta: Meta, storedAt: int)

  /** What the index means: every ref with its entry and its scope. */
  datatype Item = Item(entry: Entry, scope: Scope)

  function Outside(items: map<Ref, Item>, scope: Scope): map<Ref, Item> {
    map r | r in items && items[r].scope != scope :: items[r]
  }

  function NotBefore(items: map<Ref, Item>, cutoff: int): map<Ref, Item> {
    map r | r in items && !(items[r].entry.storedAt < cutoff) :: items[r]
  }

  /** Same keys; a ref is in a scope's set exactly if it maps to the scope; no scope is empty. */
  predicate Linked(refs: map<Ref, Entry>, scopeToRefs: map<Scope, set<Ref>>, refToScope: map<Ref, Scope>) {
    && refs.Keys == refToScope.Keys
    && (forall s, r :: s in scopeToRefs && r in scopeToRefs[s] ==> r in refToScope && refToScope[r] == s)
    && (forall r :: r in refToScope ==> refToScope[r] in scopeToRefs && r in scopeToRefs[refToScope[r]])
    && (forall s :: s in scopeToRefs ==> scopeToRefs[s] != {})
  }

  function Items(refs: map<Ref, Entry>, refToScope: map<Ref, Scope>): (r: map<Ref, Item>)
    requires refs.Keys == refToScope.Keys
    ensures r.Keys == refs.Keys
  {
    map r | r in refs :: Item(refs[r], refToScope[r])
  }

  /** The scope's set with one more ref. */
  function Joined(scopeToRefs: map<Scope, set<Ref>>, scope: Scope, ref: Ref): map<Scope, set<Ref>> {
    scopeToRefs[scope := (if scope in scopeToRefs then scopeToRefs[scope] else {}) + {ref}]
  }

  lemma JoinedInSteps(scopeToRefs: map<Scope, set<Ref>>, scope: Scope, ref: Ref)
    ensures var ready := if scope in scopeToRefs then scopeToRefs else scopeToRefs[scope := {}];
            Joined(scopeToRefs, scope, ref) == ready[scope := ready[scope] + {ref}]
  {
  }

  /** The scope's set with one ref less; an empty set goes. */
  function Left(scopeToRefs: map<Scope, set<Ref>>, scope: Scope, ref: Ref): map<Scope, set<Ref>>
    requires scope in scopeToRefs
  {
    if scopeToRefs[scope] - {ref} == {} then scopeToRefs - {scope}
    else scopeToRefs[scope := scopeToRefs[scope] - {ref}]
  }

  lemma LinkedMore(refs: map<Ref, Entry>, scopeToRefs: map<Scope, set<Ref>>, refToScope: map<Ref, Scope>,
                   ref: Ref, entry: Entry, scope: Scope)
    requires Linked(refs, scopeToRefs, refToScope) && ref !in refs
    ensures Linked(refs[ref := entry], Joined(scopeToRefs, scope, ref), refToScope[ref := scope])
    ensures Items(refs[ref := entry], refToScope[ref := scope]) == Items(refs, refToScope)[ref := Item(entry, scope)]
  {
  }

  lemma LinkedLess(refs: map<Ref, Entry>, scopeToRefs: map<Scope, set<Ref>>, refToScope: map<Ref, Scope>, ref: Ref)
    requires Linked(refs, scopeToRefs, refToScope) && ref in refs
    ensures refToScope[ref] in scopeToRefs
    ensures Linked(refs - {ref}, Left(scopeToRefs, refToScope[ref], ref), refToScope - {ref})
    ensures Items(refs - {ref}, refToScope - {ref}) == Items(refs, refToScope) - {ref}
  {
  }

  lemma LinkedWithoutScope(refs: map<Ref, Entry>, scopeToRefs: map<Scope, set<Ref>>, refToScope: map<Ref, Scope>,
                           scope: Scope, gone: set<Ref>)
    requires Linked(refs, scopeToRefs, refToScope)
    requires gone == if scope in scopeToRefs then scopeToRefs[scope] else {}
    ensures Linked(refs - gone, scopeToRefs - {scope}, refToScope - gone)
  {
    forall s, r | s in scopeToRefs - {scope} && r in scopeToRefs[s]
      ensures r in refToScope - gone && refToScope[r] == s
    {
      assert r in refToScope && refToScope[r] == s;
    }
    forall r | r in refToScope - gone
      ensures refToScope[r] in scopeToRefs - {scope} && r in scopeToRefs[refToScope[r]]
    {
      assert refToScope[r] == scope ==> r in gone;
    }
  }

  lemma ItemsWithoutScope(refs: map<Ref, Entry>, scopeToRefs: map<Scope, set<Ref>>, refToScope: map<Ref, Scope>,
                          scope: Scope, gone: set<Ref>)
    requires Linked(refs, scopeToRefs, refToScope)
    requires gone == if scope in scopeToRefs then scopeToRefs[scope] else {}
    ensures Items(refs - gone, refToScope - gone) == Outside(Items(refs, refToScope), scope)
    ensures gone == InScope(Items(refs, refToScope), scope) && gone <= refs.Keys
  {
    forall r | r in refs
      ensures r in gone <==> refToScope[r] == scope
    {
    }
  }

  function InScope(items: map<Ref, Item>, scope: Scope): set<Ref> {
    set r | r in items && items[r].scope == scope
  }

  class FileMediaStore {
    var refs: map<Ref, Entry>
    var scopeToRefs: map<Scope, set<Ref>>
    var refToScope: map<Ref, Scope>
    const maxAge: int

    ghost predicate Valid()
      reads this
    {
      Linked(refs, scopeToRefs, refToScope)
    }

    ghost function Contents(): map<Ref, Item>
      requires Valid()
      reads this
    {
      Items(refs, refToScope)
    }

    constructor (maxAge: int)
      ensures Valid() && Contents() == map[] && this.maxAge == maxAge
    {
      refs, scopeToRefs, refToScope, this.maxAge := map[], map[], map[], maxAge;
    }

    /** Register a file under a scope and a ref that is not in use; a file that is missing changes nothing. */
    method Store(present: bool, path: string, meta: Meta, scope: Scope, ref: Ref, now: int) returns (stored: bool)
      requires Valid() && ref !in refs
      modifies this
      ensures Valid() && stored == present
      ensures Contents() ==
              if stored then old(Contents())[ref := Item(Entry(path, meta, now), scope)] else old(Contents())
    {
      if !present {
        return false;
      }
      LinkedMore(refs, scopeToRefs, refToScope, ref, Entry(path, meta, now), scope);
      ghost var joined := Joined(scopeToRefs, scope, ref);
      hide Linked, Items, Joined;
      JoinedInSteps(scopeToRefs, scope, ref);
      refs := refs[ref := Entry(path, meta, now)];
      if scope !in scopeToRefs {
        scopeToRefs := scopeToRefs[scope := {}];
      }
      scopeToRefs := scopeToRefs[scope := scopeToRefs[scope] + {ref}];
      refToScope := refToScope[ref := scope];
      return true;
    }

    method Resolve(ref: Ref) returns (path: Option<string>)
      requires Valid()
      ensures path == if ref in Contents() then Some(Contents()[ref].entry.path) else None
    {
      return if ref in refs then Some(refs[ref].path) else None;
    }

    /** Forget everything under the scope; the files of exactly those entries are to be deleted. */
    method ReleaseAll(scope: Scope) returns (paths: multiset<string>)
      requires Valid()
      modifies this
      ensures Valid() && Contents() == Outside(old(Contents()), scope)
      ensures InScope(old(Contents()), scope) <= old(refs).Keys
      ensures paths == Paths(old(refs), InScope(old(Contents()), scope))
    {
      ghost var gone := if scope in scopeToRefs then scopeToRefs[scope] else {};
      LinkedWithoutScope(refs, scopeToRefs, refToScope, scope, gone);
      ItemsWithoutScope(refs, scopeToRefs, refToScope, scope, gone);
      hide Linked, Items, Outside, InScope, Paths;
      if scope !in scopeToRefs {
        EmptyPaths(refs);
        assert refs - {} == refs && scopeToRefs - {scope} == scopeToRefs && refToScope - {} == refToScope;
        return multiset{};
      }
      paths := RemoveRefs(scopeToRefs[scope]);
      scopeToRefs := scopeToRefs - {scope};
    }

    method RemoveRefs(gone: set<Ref>) returns (paths: multiset<string>)
      requires gone <= refs.Keys
      modifies this`refs, this`refToScope
      ensures refs == old(refs) - gone && refToScope == old(refToScope) - gone
      ensures paths == Paths(old(refs), gone)
    {
      hide Paths;
      EmptyPaths(refs);
      var todo := gone;
      ghost var done: set<Ref> := {};
      paths := multiset{};
      while todo != {}
        invariant done + todo == gone && done !! todo
        invariant refs == old(refs) - done && refToScope == old(refToScope) - done
        invariant paths == Paths(old(refs), done)
        decreases todo
      {
        var ref :| ref in todo;
        todo := todo - {ref};
        PathsMore(old(refs), done, ref);
        paths := paths + multiset{refs[ref].path};
        refs, refToScope := refs - {ref}, refToScope - {ref};
        done := done + {ref};
      }
      assert done == gone;
    }

    /** Forget exactly the entries stored before the cutoff, and say how many; without a maximal age do nothing. */
    method CleanExpired(now: int) returns (count: nat)
      requires Valid()
      modifies this
      ensures Valid()
      ensures maxAge <= 0 ==> count == 0 && Contents() == old(Contents())
      ensures maxAge > 0 ==> Contents() == NotBefore(old(Contents()), now - maxAge)
      ensures count == |old(Contents())| - |Contents()|
    {
      count := 0;
      if maxAge <= 0 {
        return;
      }
      var cutoff := now - maxAge;
      var todo := refs.Keys;
      ghost var was := Contents();
      CleanedEnds(was, cutoff);
      hide Cleaned, Items, NotBefore;
      while todo != {}
        invariant Valid() && todo <= Contents().Keys && Contents() == Cleaned(was, todo, cutoff)
        invariant count == |was| - |Contents()|
        decreases todo
      {
        var ref :| ref in todo;
        CleanedMore(was, todo, ref, cutoff);
        EntryIs(refs, refToScope, ref);
        hide Linked;
        todo := todo - {ref};
        if refs[ref].storedAt < cutoff {
          Forget(ref);
          count := count + 1;
        }
      }
    }

    /** Take one ref out of all three maps; an emptied scope goes with it. */
    method Forget(ref: Ref)
      requires Valid() && ref in refs
      modifies this
      ensures Valid() && Contents() == old(Contents()) - {ref}
    {
      LinkedLess(refs, scopeToRefs, refToScope, ref);
      hide Linked, Items;
      if ref in refToScope {
        var scope := refToScope[ref];
        ghost var left := Left(scopeToRefs, scope, ref);
        if scope in scopeToRefs {
          scopeToRefs := scopeToRefs[scope := scopeToRefs[scope] - {ref}];
          if scopeToRefs[scope] == {} {
            scopeToRefs := scopeToRefs - {scope};
          }
          assert scopeToRefs == left;
        }
      }
      refs, refToScope := refs - {ref}, refToScope - {ref};
    }
  }

  lemma EntryIs(refs: map<Ref, Entry>, refToScope: map<Ref, Scope>, ref: Ref)
    requires refs.Keys == refToScope.Keys && ref in Items(refs, refToScope)
    ensures ref in refs && Items(refs, refToScope)[ref].entry == refs[ref]
  {
  }

  /** What is left when all refs but those still to do have been looked at. */
  function Cleaned(items: map<Ref, Item>, todo: set<Ref>, cutoff: int): map<Ref, Item> {
    map r | r in items && (r in todo || !(items[r].entry.storedAt < cutoff)) :: items[r]
  }

  lemma CleanedEnds(items: map<Ref, Item>, cutoff: int)
    ensures Cleaned(items, items.Keys, cutoff) == items && Cleaned(items, {}, cutoff) == NotBefore(items, cutoff)
  {
  }

  lemma CleanedMore(items: map<Ref, Item>, todo: set<Ref>, ref: Ref, cutoff: int)
    requires ref in todo && ref in items
    ensures var before, after := Cleaned(items, todo, cutoff), Cleaned(items, todo - {ref}, cutoff);
            && before[ref] == items[ref]
            && after == (if items[ref].entry.storedAt < cutoff then before - {ref} else before)
            && |before - {ref}| == |before| - 1
  {
    var before := Cleaned(items, todo, cutoff);
    assert (before - {ref}).Keys == before.Keys - {ref};
  }

  /** The paths of some refs, as often as they are used. */
  ghost function Paths(refs: map<Ref, Entry>, some: set<Ref>): multiset<string>
    requires some <= refs.Keys
    decreases some
  {
    if some == {} then multiset{}
    else
      var r := Pick(some);
      Paths(refs, some - {r}) + multiset{refs[r].path}
  }

  ghost function Pick(some: set<Ref>): (r: Ref)
    requires some != {}
    ensures r in some
  {
    var r :| r in some;
    r
  }

  lemma EmptyPaths(refs: map<Ref, Entry>)
    ensures Paths(refs, {}) == multiset{}
  {
  }

  /** The order in which refs are picked does not matter. */
  lemma {:induction false} PathsMore(refs: map<Ref, Entry>, some: set<Ref>, ref: Ref)
    requires some <= refs.Keys && ref in refs && ref !in some
    ensures Paths(refs, some + {ref}) == Paths(refs, some) + multiset{refs[ref].path}
    decreases some
  {
    var all := some + {ref};
    var r := Pick(all);
    if r == ref {
      assert all - {r} == some;
    } else {
      assert all - {r} == (some - {r}) + {ref};
      PathsMore(refs, some - {r}, ref);
      PathsMore(refs, some - {r}, r);
      assert some == (some - {r}) + {r};
    }
  }
}
