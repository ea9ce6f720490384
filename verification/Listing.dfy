/**
 One directory level of an object store, rebuilt from listing pages.

 A page reports object keys and, if it was asked to roll them up, common prefixes. Whatever the pages and
 their order, the result is the directory view of the keys.
 */
module Listing {
  import opened Basics
  import opened Text
  import opened KeyPaths

  datatype Info = Info(isDir: bool, size: Option<nat>, modified: Option<string>)

  const DIRECTORY := Info(true, None, None)

  /** What a listing reports: a rolled-up prefix, or an object. */
  datatype Item =
    | Prefix(prefix: string)
    | Object(key: Key, size: Option<nat>, modified: Option<string>)

  /** `first` of `s.split_once('/')` */
  function BeforeSlash(s: string): Option<string> {
    IndexOfFits(s, "/");
    match IndexOf(s, "/")
    case None => None
    case Some(i) => Some(s[..i])
  }

  function Relative(search: string, key: Key): string {
    TrimStartChar(if search <= key then key[|search|..] else key, '/')
  }

  /** One mention of a child. */
  datatype Child = Child(name: string, info: Info)

  /** The child that an item mentions. */
  function ChildOf(search: string, item: Item): Child {
    match item
    case Prefix(p) => Child(TrimEndChar(p, '/'), DIRECTORY)
    case Object(key, size, modified) =>
      match BeforeSlash(Relative(search, key))
      case Some(first) => Child(search + first, DIRECTORY)
      case None => Child(TrimEndChar(key, '/'), Info(false, size, modified))
  }

  function Children(search: string, items: seq<Item>): seq<Child> {
    if items == [] then [] else [ChildOf(search, items[0])] + Children(search, items[1..])
  }

  /** The children found so far, by name. */
  type View = map<string, Info>

  /** A name that is both an object and a prefix lists as a directory. */
  function InsertChild(v: View, current: string, c: Child): View {
    if c.name == "" || c.name == current then v
    else if c.name in v then (if c.info.isDir then v[c.name := DIRECTORY] else v)
    else v[c.name := c.info]
  }

  function InsertAll(v: View, current: string, children: seq<Child>): View
    decreases |children|
  {
    if children == [] then v else InsertAll(InsertChild(v, current, children[0]), current, children[1..])
  }

  lemma {:induction false} InsertLast(v: View, current: string, children: seq<Child>, c: Child)
    ensures InsertAll(v, current, children + [c]) == InsertChild(InsertAll(v, current, children), current, c)
    decreases |children|
  {
    if children == [] {
      assert [c][1..] == [];
    } else {
      assert (children + [c])[1..] == children[1..] + [c];
      InsertLast(InsertChild(v, current, children[0]), current, children[1..], c);
    }
  }

  lemma {:induction false} ChildrenLast(search: string, items: seq<Item>, item: Item)
    ensures Children(search, items + [item]) == Children(search, items) + [ChildOf(search, item)]
  {
    if items != [] {
      assert (items + [item])[1..] == items[1..] + [item];
      ChildrenLast(search, items[1..], item);
    } else {
      assert [item][1..] == [];
    }
  }

  // ----- the builder -----

  datatype Entry = Entry(uri: string, isDir: bool, size: Option<nat>, modified: Option<string>)

  function EntryFor(base: string, name: string, info: Info): Entry {
    Entry(base + "/" + name, info.isDir, info.size, info.modified)
  }

  class Builder {
    const base: string
    const currentKey: string
    const searchPrefix: string
    var index: map<string, nat>
    var entries: seq<Entry>
    ghost var names: seq<string>
    ghost var view: View

    /** The index maps each name to its own position, and the entry there shows what is known of it. */
    ghost predicate Valid()
      reads this
    {
      && |names| == |entries|
      && index.Keys == view.Keys
      && (forall i :: 0 <= i < |names| ==>
            names[i] in index && index[names[i]] == i && entries[i] == EntryFor(base, names[i], view[names[i]]))
      && (forall name :: name in index ==> index[name] < |names| && names[index[name]] == name)
    }

    constructor (base: string, prefix: string)
      ensures Valid() && view == map[] && entries == []
      ensures this.base == base && currentKey == TrimSlashes(prefix) && searchPrefix == SearchPrefix(prefix)
    {
      this.base, currentKey, searchPrefix := base, TrimSlashes(prefix), SearchPrefix(prefix);
      index, entries, names, view := map[], [], [], map[];
    }

    method Insert(name: string, isDir: bool, size: Option<nat>, modified: Option<string>)
      requires Valid() && (isDir ==> size.None? && modified.None?)
      modifies this
      ensures Valid() && view == InsertChild(old(view), currentKey, Child(name, Info(isDir, size, modified)))
    {
      if name == "" || name == currentKey {
        return;
      }
      view := InsertChild(view, currentKey, Child(name, Info(isDir, size, modified)));
      if name in index {
        if isDir {
          var position := index[name];
          entries := entries[position := Entry(entries[position].uri, true, None, None)];
        }
        return;
      }
      index := index[name := |entries|];
      entries := entries + [Entry(base + "/" + name, isDir, size, modified)];
      names := names + [name];
    }

    method AddPrefix(prefix: string)
      requires Valid()
      modifies this
      ensures Valid() && view == InsertChild(old(view), currentKey, ChildOf(searchPrefix, Prefix(prefix)))
    {
      Insert(TrimEndChar(prefix, '/'), true, None, None);
    }

    method AddObject(key: Key, size: Option<nat>, modified: Option<string>)
      requires Valid()
      modifies this
      ensures Valid() && view == InsertChild(old(view), currentKey, ChildOf(searchPrefix, Object(key, size, modified)))
    {
      var first := BeforeSlash(Relative(searchPrefix, key));
      if first.Some? {
        Insert(searchPrefix + first.value, true, None, None);
      } else {
        Insert(TrimEndChar(key, '/'), false, size, modified);
      }
    }

    /** One page of a listing. */
    method AddPage(page: seq<Item>)
      requires Valid()
      modifies this
      ensures Valid() && view == InsertAll(old(view), currentKey, Children(searchPrefix, page))
    {
      for i := 0 to |page|
        invariant Valid() && view == InsertAll(old(view), currentKey, Children(searchPrefix, page[..i]))
      {
        assert page[..i + 1] == page[..i] + [page[i]];
        ChildrenLast(searchPrefix, page[..i], page[i]);
        InsertLast(old(view), currentKey, Children(searchPrefix, page[..i]), ChildOf(searchPrefix, page[i]));
        match page[i]
        case Prefix(p) => AddPrefix(p);
        case Object(key, size, modified) => AddObject(key, size, modified);
      }
      assert page[..|page|] == page;
    }

    /** Every page of a listing, one after the other: where the pages are cut makes no difference. */
    method AddPages(pages: seq<seq<Item>>)
      requires Valid()
      modifies this
      ensures Valid() && view == InsertAll(old(view), currentKey, Children(searchPrefix, Flatten(pages)))
    {
      for i := 0 to |pages|
        invariant Valid() && view == InsertAll(old(view), currentKey, Children(searchPrefix, Flatten(pages[..i])))
      {
        assert pages[..i + 1] == pages[..i] + [pages[i]];
        FlattenAppend(pages[..i], pages[i]);
        PagesJoin(old(view), currentKey, searchPrefix, Flatten(pages[..i]), pages[i]);
        AddPage(pages[i]);
      }
      assert pages[..|pages|] == pages;
    }
  }

  /** The entries show each name of the view once, with what is known of it. */
  ghost predicate Shows(entries: seq<Entry>, names: seq<string>, base: string, view: View) {
    && |names| == |entries|
    && (forall i, j :: 0 <= i < j < |names| ==> names[i] != names[j])
    && (forall name :: name in names <==> name in view)
    && (forall i :: 0 <= i < |names| ==> names[i] in view && entries[i] == EntryFor(base, names[i], view[names[i]]))
  }

  /** A whole listing: the entries are the children of the path, one each, whatever the pages. */
  method ListLevel(base: string, prefix: string, pages: seq<seq<Item>>)
    returns (entries: seq<Entry>)
    ensures var view := InsertAll(map[], TrimSlashes(prefix), Children(SearchPrefix(prefix), Flatten(pages)));
            exists names :: Shows(entries, names, base, view)
  {
    var listing := new Builder(base, prefix);
    listing.AddPages(pages);
    entries := listing.entries;
    ghost var names := listing.names;
    hide InsertAll, Children, Flatten;
    forall name ensures name in names <==> name in listing.view {
      if name in listing.view {
        assert name in listing.index;
      }
    }
    assert Shows(entries, names, base, listing.view);
  }

  lemma {:induction false} PagesJoin(v: View, current: string, search: string, a: seq<Item>, b: seq<Item>)
    ensures InsertAll(v, current, Children(search, a + b))
              == InsertAll(InsertAll(v, current, Children(search, a)), current, Children(search, b))
    decreases |a|
  {
    if a == [] {
      assert a + b == b;
    } else {
      assert (a + b)[1..] == a[1..] + b;
      PagesJoin(InsertChild(v, current, ChildOf(search, a[0])), current, search, a[1..], b);
    }
  }

  // ----- what the children are, whatever the order -----

  ghost predicate WellFormed(children: seq<Child>) {
    forall c :: c in children && c.info.isDir ==> c.info == DIRECTORY
  }

  /** The view knows every mentioned child, a directory if any mention says so, and nothing else. */
  ghost predicate Describes(v: View, current: string, children: seq<Child>) {
    && (forall c :: c in children && c.name != "" && c.name != current ==>
          c.name in v && (c.info.isDir ==> v[c.name] == DIRECTORY))
    && (forall name :: name in v ==> name != "" && name != current && Child(name, v[name]) in children)
  }

  lemma {:induction false} InsertAllDescribes(current: string, children: seq<Child>)
    requires WellFormed(children)
    ensures Describes(InsertAll(map[], current, children), current, children)
  {
    if children != [] {
      var front, last := children[..|children| - 1], children[|children| - 1];
      assert children == front + [last];
      InsertAllDescribes(current, front);
      InsertLast(map[], current, front, last);
      assert last in children;
    }
  }

  /** The files of one name agree, as they do when a store lists each key with its own size and time. */
  ghost predicate FilesAgree(children: seq<Child>) {
    forall c, d | c in children && d in children && c.name == d.name && !c.info.isDir && !d.info.isDir ::
      c.info == d.info
  }

  ghost predicate SameMembers(a: seq<Child>, b: seq<Child>) {
    forall c :: c in a <==> c in b
  }

  lemma SameView(v: View, w: View, current: string, a: seq<Child>, b: seq<Child>, name: string)
    requires Describes(v, current, a) && Describes(w, current, b) && SameMembers(a, b)
    requires WellFormed(a) && WellFormed(b) && FilesAgree(a) && name in v
    ensures name in w && w[name] == v[name]
  {
    var c := Child(name, v[name]);
    assert c in a && c in b;
    var d := Child(name, w[name]);
    assert d in b && d in a;
  }

  /** Two listings that mention the same children, in any order, on any pages, however often, give the
      same view. */
  lemma OrderIrrelevant(current: string, a: seq<Child>, b: seq<Child>)
    requires SameMembers(a, b) && WellFormed(a) && FilesAgree(a)
    ensures InsertAll(map[], current, a) == InsertAll(map[], current, b)
  {
    var v, w := InsertAll(map[], current, a), InsertAll(map[], current, b);
    InsertAllDescribes(current, a);
    InsertAllDescribes(current, b);
    forall name ensures name in v <==> name in w {
      if name in v {
        SameView(v, w, current, a, b, name);
      }
      if name in w {
        SameView(w, v, current, b, a, name);
      }
    }
    forall name | name in v ensures v[name] == w[name] {
      SameView(v, w, current, a, b, name);
    }
  }

  // ----- the directory view of a set of keys -----

  /** A key and what the store knows of it, relative to the prefix it lies under. */
  datatype Stored = Stored(rel: string, size: Option<nat>, modified: Option<string>)

  /** What a flat page reports for a key. */
  function Flat(search: string, s: Stored): Item {
    Object(search + s.rel, s.size, s.modified)
  }

  /** What a delimiter page reports for it: the common prefix it is rolled up into, or the object. */
  function RolledUp(search: string, s: Stored): Item {
    match BeforeSlash(s.rel)
    case Some(first) => Prefix(search + first + "/")
    case None => Object(search + s.rel, s.size, s.modified)
  }

  lemma {:induction false} BeforeSlashHasNone(s: string)
    ensures BeforeSlash(s).Some? ==> (forall i :: 0 <= i < |BeforeSlash(s).value| ==> BeforeSlash(s).value[i] != '/')
    ensures BeforeSlash(s).Some? ==> BeforeSlash(s).value + "/" <= s
    ensures BeforeSlash(s).None? ==> forall i :: 0 <= i < |s| ==> s[i] != '/'
  {
    IndexOfFits(s, "/");
    if s != "" && s[0] != '/' {
      assert !("/" <= s);
      IndexOfFits(s[1..], "/");
      BeforeSlashHasNone(s[1..]);
      if BeforeSlash(s).Some? {
        assert BeforeSlash(s).value == [s[0]] + BeforeSlash(s[1..]).value;
      }
    } else if s != "" {
      assert "/" <= s;
    }
  }

  /** A flat page and a delimiter page mention the same child for every key that has no '/' right behind
      the prefix. */
  lemma FlatIsRolledUp(search: string, s: Stored)
    requires s.rel == "" || s.rel[0] != '/'
    ensures ChildOf(search, Flat(search, s)) == ChildOf(search, RolledUp(search, s))
  {
    var key := search + s.rel;
    assert key[|search|..] == s.rel;
    assert Relative(search, key) == s.rel;
    BeforeSlashHasNone(s.rel);
    if BeforeSlash(s.rel).Some? {
      var first := BeforeSlash(s.rel).value;
      assert first != "" by {
        assert (first + "/")[0] == s.rel[0];
      }
      TrimEndCharAfter(search + first, '/', "/");
    }
  }

  /** The prefix being listed, as a key and as the prefix of the keys below it. */
  ghost predicate IsPrefix(current: string, search: string) {
    || (current == "" && search == "")
    || (current != "" && current[|current| - 1] != '/' && search == current + "/")
  }

  lemma {:induction false} TrimEndEnds(s: string)
    ensures var t := TrimEndChar(s, '/'); t == "" || t[|t| - 1] != '/'
  {
    if s != "" && s[|s| - 1] == '/' {
      TrimEndEnds(s[..|s| - 1]);
    }
  }

  /** What the builder computes from any path it is asked to list. */
  lemma SearchPrefixIsPrefix(prefix: string)
    ensures IsPrefix(TrimSlashes(prefix), SearchPrefix(prefix))
  {
    TrimEndEnds(TrimStartChar(prefix, '/'));
  }

  lemma {:induction false} TrimEndKeeps(s: string)
    requires s == "" || s[|s| - 1] != '/'
    ensures TrimEndChar(s, '/') == s
  {
  }

  lemma PrefixTrims(current: string, search: string)
    requires IsPrefix(current, search)
    ensures TrimEndChar(search, '/') == current && TrimEndChar(search + "/", '/') == current
  {
    if current != "" {
      TrimEndCharAfter(current, '/', "/");
      assert search + "/" == current + "//";
      TrimEndCharAfter(current, '/', "//");
    } else {
      assert "/"[..0] == "";
      assert search + "/" == "/";
    }
  }

  /** The name counts as a child: neither the prefix itself nor empty. */
  predicate Effective(current: string, c: Child) {
    c.name != "" && c.name != current
  }

  /** Rolled up, a key with '/' right behind the prefix falls into the prefix itself. */
  lemma RolledIntoPrefix(current: string, search: string, s: Stored)
    requires IsPrefix(current, search) && s.rel != "" && s.rel[0] == '/'
    ensures ChildOf(search, RolledUp(search, s)) == Child(current, DIRECTORY)
  {
    PrefixTrims(current, search);
    assert "/" <= s.rel && BeforeSlash(s.rel) == Some("");
    hide TrimEndChar, IsPrefix;
    assert search + "" + "/" == search + "/";
  }

  /** Listed flat, such a key is a child unless it is slashes only. */
  lemma FlatBehindPrefix(current: string, search: string, s: Stored)
    requires IsPrefix(current, search) && s.rel != "" && s.rel[0] == '/'
    ensures var c := ChildOf(search, Flat(search, s));
            TrimStartChar(s.rel, '/') == "" <==> c.name == "" || c.name == current
  {
    var key := search + s.rel;
    var relative := TrimStartChar(s.rel, '/');
    assert key[|search|..] == s.rel && Relative(search, key) == relative;
    TrimStartSuffix(s.rel);
    BeforeSlashHasNone(relative);
    hide TrimStartChar, Relative;
    if relative == "" {
      OnlySlashes(current, search, s.rel);
    } else if BeforeSlash(relative).Some? {
      var first := BeforeSlash(relative).value;
      assert (first + "/")[0] == relative[0];
      assert |search + first| > |search|;
    } else {
      assert key[|key| - 1] == relative[|relative| - 1];
      TrimEndKeeps(key);
    }
  }

  /** The proviso is exact up to keys of slashes only: a key with '/' right behind the prefix and anything
      else after it is a child for a flat page but rolls up into the prefix itself. */
  lemma SlashBehindPrefixDiffers(current: string, search: string, s: Stored)
    requires IsPrefix(current, search) && s.rel != "" && s.rel[0] == '/'
    ensures !Effective(current, ChildOf(search, RolledUp(search, s)))
    ensures Effective(current, ChildOf(search, Flat(search, s))) <==> TrimStartChar(s.rel, '/') != ""
  {
    RolledIntoPrefix(current, search, s);
    FlatBehindPrefix(current, search, s);
    hide ChildOf, Flat, RolledUp, TrimStartChar, IsPrefix;
  }

  /** Exactly when a key counts the same on a flat page and on a delimiter page. */
  lemma SameChildExactly(current: string, search: string, s: Stored)
    requires IsPrefix(current, search)
    ensures var f, r := ChildOf(search, Flat(search, s)), ChildOf(search, RolledUp(search, s));
            var same := f == r || (!Effective(current, f) && !Effective(current, r));
            same <==> s.rel == "" || s.rel[0] != '/' || TrimStartChar(s.rel, '/') == ""
  {
    if s.rel == "" || s.rel[0] != '/' {
      FlatIsRolledUp(search, s);
    } else {
      SlashBehindPrefixDiffers(current, search, s);
    }
    hide ChildOf, Flat, RolledUp, TrimStartChar, IsPrefix;
  }

  lemma {:induction false} TrimStartSuffix(s: string)
    ensures var t := TrimStartChar(s, '/');
            && |t| <= |s| && t == s[|s| - |t|..] && (t != "" ==> t[0] != '/')
            && (t == "" ==> forall i :: 0 <= i < |s| ==> s[i] == '/')
  {
    if s != "" && s[0] == '/' {
      TrimStartSuffix(s[1..]);
    }
  }

  lemma OnlySlashes(current: string, search: string, rel: string)
    requires IsPrefix(current, search) && forall i :: 0 <= i < |rel| ==> rel[i] == '/'
    ensures TrimEndChar(search + rel, '/') == current
  {
    if current != "" {
      assert search + rel == current + ("/" + rel);
      TrimEndCharAfter(current, '/', "/" + rel);
    } else {
      assert search + rel == rel;
      SlashesTrim(rel);
    }
  }

  lemma {:induction false} SlashesTrim(s: string)
    requires forall i :: 0 <= i < |s| ==> s[i] == '/'
    ensures TrimEndChar(s, '/') == ""
  {
    if s != "" {
      SlashesTrim(s[..|s| - 1]);
    }
  }

  function FlatItems(search: string, stored: seq<Stored>): seq<Item> {
    if stored == [] then [] else [Flat(search, stored[0])] + FlatItems(search, stored[1..])
  }

  function RolledUpItems(search: string, stored: seq<Stored>): seq<Item> {
    if stored == [] then [] else [RolledUp(search, stored[0])] + RolledUpItems(search, stored[1..])
  }

  ghost predicate NoSlashBehind(stored: seq<Stored>) {
    forall s :: s in stored ==> s.rel == "" || s.rel[0] != '/'
  }

  lemma {:induction false} FlatEqualsDelimiter(search: string, stored: seq<Stored>)
    requires NoSlashBehind(stored)
    ensures Children(search, FlatItems(search, stored)) == Children(search, RolledUpItems(search, stored))
  {
    if stored != [] {
      assert stored[0] in stored && forall s :: s in stored[1..] ==> s in stored;
      FlatIsRolledUp(search, stored[0]);
      FlatEqualsDelimiter(search, stored[1..]);
    }
  }

  predicate NoSlash(child: string) {
    child != "" && forall i :: 0 <= i < |child| ==> child[i] != '/'
  }

  /** The key lies below the child. */
  predicate IsBelow(rel: string, child: string) {
    child + "/" <= rel
  }

  lemma {:induction false} BelowIsBeforeSlash(rel: string, child: string)
    requires forall i :: 0 <= i < |child| ==> child[i] != '/'
    ensures IsBelow(rel, child) <==> BeforeSlash(rel) == Some(child)
  {
    IndexOfFits(rel, "/");
    BeforeSlashHasNone(rel);
    if IsBelow(rel, child) {
      var rest := rel[|child| + 1..];
      assert rel == child + "/" + rest;
      assert rel[..|child|] == child;
      NoSlashEnds(child);
      IndexAfterPiece(child, "/", rest);
    }
  }

  lemma {:induction false} NoSlashEnds(s: string)
    requires forall i :: 0 <= i < |s| ==> s[i] != '/'
    ensures EndsAtFirst(s, "/")
  {
    if s != "" {
      assert (s + "/")[0] == s[0];
      NoSlashEnds(s[1..]);
    }
  }

  /** Which child a key mentions, in the terms of a directory. */
  lemma ChildMeaning(current: string, search: string, s: Stored, child: string)
    requires IsPrefix(current, search) && NoSlash(child) && (s.rel == "" || s.rel[0] != '/')
    ensures var c := ChildOf(search, Flat(search, s));
            && (c == Child(search + child, DIRECTORY) <==> IsBelow(s.rel, child))
            && (c.name == search + child && !c.info.isDir <==> s.rel == child)
            && (s.rel == child ==> c.info == Info(false, s.size, s.modified))
  {
    var key := search + s.rel;
    assert key[|search|..] == s.rel && Relative(search, key) == s.rel;
    BelowIsBeforeSlash(s.rel, child);
    BeforeSlashHasNone(s.rel);
    PrefixTrims(current, search);
    if s.rel != "" && BeforeSlash(s.rel).None? {
      TrimEndKeeps(key);
    }
    hide IsBelow, BeforeSlash, TrimEndChar, IsPrefix, Relative;
    if BeforeSlash(s.rel).Some? {
      var first := BeforeSlash(s.rel).value;
      SameBehind(search, first, child);
      assert (first + "/")[|first|] == s.rel[|first|];
    } else if s.rel == "" {
      assert key == search;
    } else {
      SameBehind(search, s.rel, child);
    }
  }

  lemma SameBehind(search: string, a: string, b: string)
    ensures search + a == search + b <==> a == b
  {
    assert (search + a)[|search|..] == a && (search + b)[|search|..] == b;
  }

  lemma {:induction false} FlatChildren(search: string, stored: seq<Stored>, c: Child)
    requires NoSlashBehind(stored)
    ensures c in Children(search, FlatItems(search, stored)) <==>
              exists s :: s in stored && c == ChildOf(search, Flat(search, s))
  {
    if stored != [] {
      FlatChildren(search, stored[1..], c);
      if c == ChildOf(search, Flat(search, stored[0])) {
        assert stored[0] in stored;
      }
    }
  }

  ghost predicate DistinctKeys(stored: seq<Stored>) {
    forall s, t :: s in stored && t in stored && s.rel == t.rel ==> s == t
  }

  /** The result is the directory view: a child is listed if some key is it or lies below it; it is a
      directory if some key lies below it, and otherwise a file with that key's size and time. */
  lemma DirectoryView(current: string, search: string, stored: seq<Stored>, child: string)
    requires IsPrefix(current, search) && NoSlashBehind(stored) && DistinctKeys(stored) && NoSlash(child)
    ensures var v, name := InsertAll(map[], current, Children(search, FlatItems(search, stored))), search + child;
            && (name in v <==> exists s :: s in stored && (s.rel == child || IsBelow(s.rel, child)))
            && (name in v ==> (v[name] == DIRECTORY <==> exists s :: s in stored && IsBelow(s.rel, child)))
            && (name in v && v[name] != DIRECTORY ==>
                  exists s :: s in stored && s.rel == child && v[name] == Info(false, s.size, s.modified))
  {
    var kids := Children(search, FlatItems(search, stored));
    var v, name := InsertAll(map[], current, kids), search + child;
    KidsWellFormed(search, FlatItems(search, stored));
    InsertAllDescribes(current, kids);
    assert name != "" && name != current by {
      assert |name| > |search|;
    }
    hide InsertAll, ChildOf, Flat, IsBelow, NoSlash, IsPrefix, Children, FlatItems, DistinctKeys;
    if name in v {
      FlatChildren(search, stored, Child(name, v[name]));
      var s :| s in stored && Child(name, v[name]) == ChildOf(search, Flat(search, s));
      ChildMeaning(current, search, s, child);
    }
    if s :| s in stored && IsBelow(s.rel, child) {
      ChildMeaning(current, search, s, child);
      FlatChildren(search, stored, Child(name, DIRECTORY));
    }
    if s :| s in stored && s.rel == child {
      ChildMeaning(current, search, s, child);
      FlatChildren(search, stored, ChildOf(search, Flat(search, s)));
    }
  }

  lemma {:induction false} KidsWellFormed(search: string, items: seq<Item>)
    ensures WellFormed(Children(search, items))
  {
    if items != [] {
      KidsWellFormed(search, items[1..]);
    }
  }

  /** The file that a flat page reports for a key, if it is one. */
  lemma FileChild(current: string, search: string, s: Stored)
    requires IsPrefix(current, search) && (s.rel == "" || s.rel[0] != '/')
    ensures var c := ChildOf(search, Flat(search, s));
            !c.info.isDir ==> c == Child(if s.rel == "" then current else search + s.rel, Info(false, s.size, s.modified))
  {
    var key := search + s.rel;
    assert key[|search|..] == s.rel && Relative(search, key) == s.rel;
    BeforeSlashHasNone(s.rel);
    PrefixTrims(current, search);
    hide BeforeSlash, Relative, IsPrefix;
    if s.rel != "" {
      if BeforeSlash(s.rel).None? {
        assert key[|key| - 1] == s.rel[|s.rel| - 1];
        TrimEndKeeps(key);
      }
    } else {
      assert key == search;
    }
  }

  lemma FlatFilesAgree(current: string, search: string, stored: seq<Stored>)
    requires IsPrefix(current, search) && NoSlashBehind(stored) && DistinctKeys(stored)
    ensures FilesAgree(Children(search, FlatItems(search, stored)))
  {
    hide ChildOf, Flat, FlatItems, Children;
    var kids := Children(search, FlatItems(search, stored));
    forall c, d | c in kids && d in kids && c.name == d.name && !c.info.isDir && !d.info.isDir
      ensures c.info == d.info
    {
      FlatChildren(search, stored, c);
      FlatChildren(search, stored, d);
      var s :| s in stored && c == ChildOf(search, Flat(search, s));
      var t :| t in stored && d == ChildOf(search, Flat(search, t));
      FileChild(current, search, s);
      FileChild(current, search, t);
      assert s.rel == t.rel by {
        assert |current| <= |search|;
        if s.rel != "" && t.rel != "" {
          assert (search + s.rel)[|search|..] == s.rel && (search + t.rel)[|search|..] == t.rel;
        }
      }
    }
  }

  ghost predicate SameItems(a: seq<Item>, b: seq<Item>) {
    forall item :: item in a <==> item in b
  }

  lemma {:induction false} ChildrenMember(search: string, items: seq<Item>, c: Child)
    ensures c in Children(search, items) <==> exists item :: item in items && c == ChildOf(search, item)
  {
    if items != [] {
      ChildrenMember(search, items[1..], c);
      if c == ChildOf(search, items[0]) {
        assert items[0] in items;
      }
    }
  }

  lemma SameItemsSameChildren(search: string, a: seq<Item>, b: seq<Item>)
    requires SameItems(a, b)
    ensures SameMembers(Children(search, a), Children(search, b))
  {
    forall c ensures c in Children(search, a) <==> c in Children(search, b) {
      ChildrenMember(search, a, c);
      ChildrenMember(search, b, c);
    }
  }

  /** One set of keys, listed flat or rolled up, on any pages, in any order, with repeats: the entries are
      the same, provided no key has '/' right behind the prefix. */
  lemma FlatAndDelimiterAgree(current: string, search: string, stored: seq<Stored>, flat: seq<Item>, rolled: seq<Item>)
    requires IsPrefix(current, search) && NoSlashBehind(stored) && DistinctKeys(stored)
    requires SameItems(flat, FlatItems(search, stored)) && SameItems(rolled, RolledUpItems(search, stored))
    ensures InsertAll(map[], current, Children(search, flat)) == InsertAll(map[], current, Children(search, rolled))
  {
    var kids := Children(search, FlatItems(search, stored));
    SameItemsSameChildren(search, flat, FlatItems(search, stored));
    SameItemsSameChildren(search, rolled, RolledUpItems(search, stored));
    FlatEqualsDelimiter(search, stored);
    FlatFilesAgree(current, search, stored);
    KidsWellFormed(search, FlatItems(search, stored));
    OrderIrrelevant(current, kids, Children(search, flat));
    OrderIrrelevant(current, kids, Children(search, rolled));
  }

  // ----- what a caller sees -----

  /** The entries for a child of the path: its uri, and what kind of thing it is. */
  ghost predicate EntryAt(entries: seq<Entry>, uri: string, e: Entry) {
    e in entries && e.uri == uri
  }

  /** Listing a path, with its slashes or without, gives one entry for each child: something that some key is or
      lies below. Its uri is the base, the path and the name, with one slash between them; it is a directory if
      some key lies below it, and otherwise a file with the size and the time of its key. */
  lemma ListingIsDirectory(base: string, prefix: string, core: string, items: seq<Item>, stored: seq<Stored>,
                           entries: seq<Entry>, names: seq<string>, child: string)
    requires Denotes(prefix, core) && NoSlashBehind(stored) && DistinctKeys(stored) && NoSlash(child)
    requires SameItems(items, FlatItems(Below(core), stored)) || SameItems(items, RolledUpItems(Below(core), stored))
    requires Shows(entries, names, base, InsertAll(map[], TrimSlashes(prefix), Children(SearchPrefix(prefix), items)))
    ensures var uri := base + "/" + Below(core) + child;
            && ((exists e :: EntryAt(entries, uri, e)) <==> exists s :: s in stored && (s.rel == child || IsBelow(s.rel, child)))
            && (forall e :: EntryAt(entries, uri, e) ==>
                  && (e.isDir <==> exists s :: s in stored && IsBelow(s.rel, child))
                  && (e.isDir ==> e.size.None? && e.modified.None?)
                  && (!e.isDir ==> exists s :: s in stored && s.rel == child && e == Entry(uri, false, s.size, s.modified)))
            && (forall e, f :: EntryAt(entries, uri, e) && EntryAt(entries, uri, f) ==> e == f)
  {
    var search, uri, name := Below(core), base + "/" + Below(core) + child, Below(core) + child;
    SearchesBelow(prefix);
    var v := InsertAll(map[], core, Children(search, items));
    ViewOfLevel(prefix, core, items, stored, child);
    hide InsertAll, Children, FlatItems, RolledUpItems, SearchPrefix, TrimSlashes, IsBelow, NoSlashBehind, DistinctKeys;
    hide Denotes, NoSlash, SameItems, Shows, Below;
    EntriesOfView(entries, names, base, v, name);
    assert base + "/" + name == uri;
    hide EntryAt;
  }

  /** What the view of a level says of one name. */
  lemma ViewOfLevel(prefix: string, core: string, items: seq<Item>, stored: seq<Stored>, child: string)
    requires Denotes(prefix, core) && NoSlashBehind(stored) && DistinctKeys(stored) && NoSlash(child)
    requires SameItems(items, FlatItems(Below(core), stored)) || SameItems(items, RolledUpItems(Below(core), stored))
    ensures var v, name := InsertAll(map[], core, Children(Below(core), items)), Below(core) + child;
            && (name in v <==> exists s :: s in stored && (s.rel == child || IsBelow(s.rel, child)))
            && (name in v ==> (v[name].isDir <==> exists s :: s in stored && IsBelow(s.rel, child)))
            && (name in v && v[name].isDir ==> v[name] == DIRECTORY)
            && (name in v && !v[name].isDir ==>
                  exists s :: s in stored && s.rel == child && v[name] == Info(false, s.size, s.modified))
  {
    hide InsertAll, Children, FlatItems, RolledUpItems, IsBelow, NoSlashBehind, DistinctKeys, NoSlash;
    var search, name := Below(core), Below(core) + child;
    SearchesBelow(prefix);
    SearchPrefixIsPrefix(prefix);
    hide SearchPrefix, TrimSlashes, Denotes;
    var flat, rolled := FlatItems(search, stored), RolledUpItems(search, stored);
    var kids := Children(search, flat);
    assert SameItems(flat, flat) && SameItems(rolled, rolled);
    if SameItems(items, flat) {
      FlatAndDelimiterAgree(core, search, stored, items, rolled);
    } else {
      FlatAndDelimiterAgree(core, search, stored, flat, items);
    }
    FlatAndDelimiterAgree(core, search, stored, flat, rolled);
    hide SameItems;
    DirectoryView(core, search, stored, child);
    KidsWellFormed(search, flat);
    InsertAllDescribes(core, kids);
    DirsAreBare(InsertAll(map[], core, kids), core, kids, name);
    hide WellFormed, Describes, IsPrefix, Below;
  }

  lemma DirsAreBare(v: View, current: string, children: seq<Child>, name: string)
    requires WellFormed(children) && Describes(v, current, children)
    ensures name in v ==> (v[name].isDir <==> v[name] == DIRECTORY)
  {
    assert name in v ==> Child(name, v[name]) in children;
  }

  /** The entry with a uri is the one of its name. */
  lemma EntriesOfView(entries: seq<Entry>, names: seq<string>, base: string, v: View, name: string)
    requires Shows(entries, names, base, v)
    ensures var uri := base + "/" + name;
            && ((exists e :: EntryAt(entries, uri, e)) <==> name in v)
            && (forall e :: EntryAt(entries, uri, e) ==>
                  name in v && e == Entry(uri, v[name].isDir, v[name].size, v[name].modified))
  {
    var uri := base + "/" + name;
    forall e | EntryAt(entries, uri, e)
      ensures name in v && e == Entry(uri, v[name].isDir, v[name].size, v[name].modified)
    {
      var i :| 0 <= i < |entries| && entries[i] == e;
      SameBehind(base + "/", names[i], name);
    }
    if name in v {
      var i :| 0 <= i < |names| && names[i] == name;
      assert EntryAt(entries, uri, entries[i]);
    }
  }
}
