/** Listing a directory tree (internal/tools/search.go): a walk of everything that is then sorted, and
    the bounded walk that expands directories lazily in key order and stops after "limit" files. */
module DirectoryWalk {
  import opened Text

  /** A finite tree that does not change while it is walked. */
  datatype Node = File | Symlink | Dir(entries: seq<Entry>)
  datatype Entry = Entry(name: string, node: Node)

  function AsciiLower(c: char): char { if 'A' <= c <= 'Z' then (c as int + 32) as char else c }

  /** What the walk needs from the platform: unicode.ToLower, character by character. */
  type Folding = f: char -> char | (forall c: char :: if c as int < 0x80 then f(c) == AsciiLower(c) else f(c) != '/')
    witness AsciiLower

  // ---------------------------------------------------------------- which paths may be listed

  /** A path component that workspace.protected refuses, once it is in lower case. */
  predicate ProtectedPart(part: string) {
    || part == ".git" || HasPrefix(part, ".env")
    || Contains(part, "secret") || Contains(part, "credential") || Contains(part, "vault")
  }

  function ToLower(path: string, lower: Folding): (r: string)
    ensures |r| == |path|
  {
    seq(|path|, i requires 0 <= i < |path| => lower(path[i]))
  }

  predicate Protected(path: string, lower: Folding) {
    exists part | part in Split(ToLower(path, lower), '/') :: ProtectedPart(part)
  }

  /** The colon is sought in the second byte, which is the second character only after a one-byte one. */
  predicate IsAbsolute(path: string) {
    || (path != "" && (path[0] == '/' || path[0] == '\\'))
    || (|path| >= 2 && path[0] as int < 0x80 && path[1] == ':')
  }

  /** workspace.Resolve succeeds on a clean path that runs through no symbolic link. */
  predicate Resolves(path: string, lower: Folding) {
    !IsAbsolute(path) && !Protected(path, lower)
  }

  predicate IsGitDirectory(path: string) {
    ".git" in Split(path, '/')
  }

  /** The path of an entry of the directory "dir"; the root directory is the empty path. */
  function Child(dir: string, name: string): string {
    if dir == "" then name else dir + "/" + name
  }

  /** A path below a directory that does not resolve does not resolve either. */
  lemma ProtectionIsInherited(dir: string, below: string, lower: Folding)
    requires !Resolves(dir, lower)
    ensures !Resolves(dir + "/" + below, lower)
  {
    var path := dir + "/" + below;
    if Protected(dir, lower) {
      assert ToLower(path, lower) == ToLower(dir, lower) + ['/'] + ToLower(below, lower);
      SplitAtSeparator(ToLower(dir, lower), ToLower(below, lower), '/');
      var part :| part in Split(ToLower(dir, lower), '/') && ProtectedPart(part);
      assert part in Split(ToLower(path, lower), '/');
    }
  }

  // ---------------------------------------------------------------- order of keys

  /** Go's string order. Comparing scalar values agrees with comparing the UTF-8 bytes. */
  predicate Leq(a: string, b: string) {
    a == "" || (b != "" && (a[0] < b[0] || (a[0] == b[0] && Leq(a[1..], b[1..]))))
  }

  lemma {:induction false} LeqTotal(a: string, b: string)
    ensures Leq(a, b) || Leq(b, a)
    ensures Leq(a, b) && Leq(b, a) ==> a == b
  {
    if a != "" && b != "" && a[0] == b[0] {
      LeqTotal(a[1..], b[1..]);
      assert a == [a[0]] + a[1..] && b == [b[0]] + b[1..];
    }
  }

  lemma {:induction false} LeqTransitive(a: string, b: string, c: string)
    requires Leq(a, b) && Leq(b, c)
    ensures Leq(a, c)
  {
    if a != "" && a[0] == b[0] == c[0] {
      LeqTransitive(a[1..], b[1..], c[1..]);
    }
  }

  lemma {:induction false} LeqPrefix(a: string, b: string)
    ensures Leq(a, a + b)
  {
    if a != "" {
      assert (a + b)[1..] == a[1..] + b;
      LeqPrefix(a[1..], b);
    }
  }

  /** One is a prefix of the other, or has the smaller character where they first differ. */
  ghost predicate InOrder(a: string, b: string) {
    a <= b || exists k: nat :: k < |a| && k < |b| && a[..k] == b[..k] && a[k] < b[k]
  }

  lemma {:induction false} LeqGivesOrder(a: string, b: string)
    requires Leq(a, b)
    ensures InOrder(a, b)
  {
    if a != "" && a[0] == b[0] {
      var c, d := a[1..], b[1..];
      LeqGivesOrder(c, d);
      assert a == [a[0]] + c && b == [a[0]] + d;
      if k: nat :| k < |c| && k < |d| && c[..k] == d[..k] && c[k] < d[k] {
        assert a[..k + 1] == [a[0]] + c[..k] && b[..k + 1] == [a[0]] + d[..k];
        assert a[k + 1] < b[k + 1];
      }
    } else if a != "" {
      assert a[..0] == b[..0];
    }
  }

  lemma {:induction false} OrderGivesLeq(a: string, b: string)
    requires InOrder(a, b)
    ensures Leq(a, b)
  {
    if a <= b {
      LeqPrefix(a, b[|a|..]);
      assert b == a + b[|a|..];
    } else {
      var k: nat :| k < |a| && k < |b| && a[..k] == b[..k] && a[k] < b[k];
      if k > 0 {
        assert a[..k][0] == b[..k][0];
        assert a[1..][..k - 1] == a[..k][1..] && b[1..][..k - 1] == b[..k][1..];
        OrderGivesLeq(a[1..], b[1..]);
      }
    }
  }

  /** Go's order is the order in which these keys come. */
  lemma LeqIsInOrder(a: string, b: string)
    ensures Leq(a, b) <==> InOrder(a, b)
  {
    if Leq(a, b) { LeqGivesOrder(a, b); }
    if InOrder(a, b) { OrderGivesLeq(a, b); }
  }

  // ---------------------------------------------------------------- sorting by key

  predicate SortedBy<T>(key: T -> string, s: seq<T>) {
    forall i, j | 0 <= i < j < |s| :: Leq(key(s[i]), key(s[j]))
  }

  function Insert<T>(key: T -> string, x: T, s: seq<T>): (r: seq<T>)
    ensures multiset(r) == multiset(s) + multiset{x}
  {
    if s == [] then [x]
    else
      assert s == [s[0]] + s[1..];
      if Leq(key(x), key(s[0])) then [x] + s else [s[0]] + Insert(key, x, s[1..])
  }

  /** sort.Slice and sort.Strings, as some sorting algorithm. */
  function SortBy<T>(key: T -> string, s: seq<T>): (r: seq<T>)
    ensures multiset(r) == multiset(s)
  {
    if s == [] then []
    else
      assert s == [s[0]] + s[1..];
      Insert(key, s[0], SortBy(key, s[1..]))
  }

  lemma {:induction false} InsertSorts<T>(key: T -> string, x: T, s: seq<T>)
    requires SortedBy(key, s)
    ensures SortedBy(key, Insert(key, x, s))
  {
    if s != [] {
      if Leq(key(x), key(s[0])) {
        forall j | 0 <= j < |s| ensures Leq(key(x), key(s[j])) {
          if j > 0 { LeqTransitive(key(x), key(s[0]), key(s[j])); }
        }
      } else {
        LeqTotal(key(x), key(s[0]));
        var tail := Insert(key, x, s[1..]);
        InsertSorts(key, x, s[1..]);
        forall j | 0 <= j < |tail| ensures Leq(key(s[0]), key(tail[j])) {
          assert tail[j] in multiset(tail);
          assert tail[j] == x || tail[j] in s[1..];
        }
      }
    }
  }

  lemma {:induction false} SortBySorts<T>(key: T -> string, s: seq<T>)
    ensures SortedBy(key, SortBy(key, s))
  {
    if s != [] {
      SortBySorts(key, s[1..]);
      InsertSorts(key, s[0], SortBy(key, s[1..]));
    }
  }

  function Identity(s: string): string { s }

  function SortStrings(s: seq<string>): seq<string> { SortBy(Identity, s) }

  predicate Sorted(s: seq<string>) { SortedBy(Identity, s) }

  lemma HeadIsLeast(s: seq<string>, x: string)
    requires Sorted(s) && x in s
    ensures Leq(s[0], x)
  {
    LeqTotal(x, x);
    var i :| 0 <= i < |s| && s[i] == x;
    if i > 0 {
      assert Leq(Identity(s[0]), Identity(s[i]));
    }
  }

  lemma SortedTail(s: seq<string>)
    requires Sorted(s) && s != []
    ensures Sorted(s[1..]) && multiset(s[1..]) == multiset(s) - multiset{s[0]}
  {
    assert s == [s[0]] + s[1..];
  }

  /** There is one way to sort: sorted lists with the same elements are equal. */
  lemma {:induction false} SortedIsUnique(a: seq<string>, b: seq<string>)
    requires Sorted(a) && Sorted(b) && multiset(a) == multiset(b)
    ensures a == b
  {
    assert |a| == |multiset(a)| == |b|;
    if a != [] {
      assert a[0] in multiset(b) && b[0] in multiset(a);
      HeadIsLeast(a, b[0]);
      HeadIsLeast(b, a[0]);
      LeqTotal(a[0], b[0]);
      SortedTail(a);
      SortedTail(b);
      SortedIsUnique(a[1..], b[1..]);
    }
  }

  // ---------------------------------------------------------------- the complete walk

  /** The files that filepath.WalkDir hands to walkAllFiles below one entry, in visiting order. */
  function VisitNode(node: Node, path: string, lower: Folding): seq<string>
    decreases node, 0
  {
    match node
    case File => if Resolves(path, lower) then [path] else []
    case Symlink => []
    case Dir(entries) => if IsGitDirectory(path) then [] else Visit(entries, path, lower)
  }

  function Visit(entries: seq<Entry>, dir: string, lower: Folding): seq<string>
    decreases entries
  {
    if entries == [] then []
    else VisitNode(entries[0].node, Child(dir, entries[0].name), lower) + Visit(entries[1..], dir, lower)
  }

  /** walkAllFiles: everything, sorted. */
  function WalkAllFiles(root: seq<Entry>, lower: Folding): seq<string> {
    SortStrings(Visit(root, "", lower))
  }

  // ---------------------------------------------------------------- what the complete walk lists

  /** Going down by entries of these names ends at a regular file. */
  ghost predicate LeadsTo(node: Node, names: seq<string>)
    decreases |names|
  {
    if names == [] then node.File?
    else
      node.Dir? && exists i | 0 <= i < |node.entries| ::
                     node.entries[i].name == names[0] && LeadsTo(node.entries[i].node, names[1..])
  }

  function Below(dir: string, names: seq<string>): string
    decreases |names|
  {
    if names == [] then dir else Below(Child(dir, names[0]), names[1..])
  }

  lemma {:induction false} BelowIsJoined(dir: string, names: seq<string>)
    requires dir != ""
    ensures Below(dir, names) == Join([dir] + names, '/')
    decreases |names|
  {
    if names != [] {
      var first := dir + "/" + names[0];
      BelowIsJoined(first, names[1..]);
      var all, rest := [dir] + names, [first] + names[1..];
      assert all[1..] == names && rest[1..] == names[1..];
      if |names| > 1 {
        assert Join(all, '/') == dir + "/" + (names[0] + "/" + Join(names[1..], '/'));
      } else {
        assert names == [names[0]];
      }
    }
  }

  lemma GitIsProtected(dir: string, lower: Folding)
    requires IsGitDirectory(dir)
    ensures dir != "" && !Resolves(dir, lower)
  {
    LowerParts(dir, lower);
    var k :| 0 <= k < |Split(dir, '/')| && Split(dir, '/')[k] == ".git";
    assert ToLower(".git", lower) == ".git";
    assert ProtectedPart(Split(ToLower(dir, lower), '/')[k]);
  }

  /** The components of the path in lower case are the components, each in lower case. */
  lemma {:induction false} LowerParts(path: string, lower: Folding)
    ensures var parts, lowered := Split(path, '/'), Split(ToLower(path, lower), '/');
            |lowered| == |parts| && forall k | 0 <= k < |parts| :: lowered[k] == ToLower(parts[k], lower)
  {
    hide ToLower;
    assert ToLower("", lower) == "";
    if path != "" {
      var c, rest := path[0], path[1..];
      LowerParts(rest, lower);
      LowerHead(c, rest, lower);
      LowerHead(c, Split(rest, '/')[0], lower);
      assert [c] + rest == path;
    }
  }

  lemma LowerHead(c: char, s: string, lower: Folding)
    ensures ToLower([c] + s, lower) == [lower(c)] + ToLower(s, lower)
    ensures lower(c) == '/' <==> c == '/'
  {
  }

  /** A directory is visited like any other node: what lies below a git directory is not listed anyway. */
  lemma DirIsVisited(entries: seq<Entry>, path: string, lower: Folding)
    ensures VisitNode(Dir(entries), path, lower) == Visit(entries, path, lower)
  {
    if IsGitDirectory(path) {
      GitIsProtected(path, lower);
      UnresolvedListsNothing(entries, path, lower);
    }
  }

  lemma {:induction false} FoundInNode(node: Node, path: string, lower: Folding, f: string) returns (names: seq<string>)
    requires f in VisitNode(node, path, lower)
    ensures LeadsTo(node, names) && f == Below(path, names) && Resolves(f, lower)
    decreases node, 1
  {
    names := [];
    if node.Dir? {
      var i, tail := FoundInEntries(node.entries, path, lower, f);
      names := [node.entries[i].name] + tail;
      assert names[1..] == tail;
    }
  }

  lemma {:induction false} FoundInEntries(entries: seq<Entry>, dir: string, lower: Folding, f: string)
    returns (i: nat, names: seq<string>)
    requires f in Visit(entries, dir, lower)
    ensures i < |entries| && LeadsTo(entries[i].node, names) && f == Below(Child(dir, entries[i].name), names)
    ensures Resolves(f, lower)
    decreases entries, 0
  {
    var path := Child(dir, entries[0].name);
    if f in VisitNode(entries[0].node, path, lower) {
      i := 0;
      names := FoundInNode(entries[0].node, path, lower, f);
    } else {
      i, names := FoundInEntries(entries[1..], dir, lower, f);
      i := i + 1;
    }
  }

  lemma {:induction false} ListedInNode(node: Node, path: string, lower: Folding, names: seq<string>)
    requires LeadsTo(node, names) && Resolves(Below(path, names), lower)
    ensures Below(path, names) in VisitNode(node, path, lower)
    decreases |names|
  {
    if names != [] {
      var i :| 0 <= i < |node.entries| && node.entries[i].name == names[0] && LeadsTo(node.entries[i].node, names[1..]);
      ListedInNode(node.entries[i].node, Child(path, names[0]), lower, names[1..]);
      VisitHasEach(node.entries, path, lower, i, Below(path, names));
      DirIsVisited(node.entries, path, lower);
    }
  }

  lemma {:induction false} VisitHasEach(entries: seq<Entry>, dir: string, lower: Folding, i: nat, f: string)
    requires i < |entries| && f in VisitNode(entries[i].node, Child(dir, entries[i].name), lower)
    ensures f in Visit(entries, dir, lower)
    decreases i
  {
    if i > 0 { VisitHasEach(entries[1..], dir, lower, i - 1, f); }
  }

  /** The walk lists a path exactly if it is made of the names on the way to a regular file, is not absolute,
      and has no component that is, begins with or contains what is protected, in whatever case. */
  lemma WalkLists(root: seq<Entry>, lower: Folding, path: string)
    requires forall e | e in root :: e.name != ""
    ensures path in WalkAllFiles(root, lower) <==>
              && (exists names | names != [] :: LeadsTo(Dir(root), names) && path == Join(names, '/'))
              && !(path != "" && path[0] in {'/', '\\'})
              && !(|path| >= 2 && path[0] as int < 0x80 && path[1] == ':')
              && forall part | part in Split(path, '/') ::
                   var p := ToLower(part, lower);
                   && p != ".git" && !HasPrefix(p, ".env")
                   && !Contains(p, "secret") && !Contains(p, "credential") && !Contains(p, "vault")
  {
    assert path in WalkAllFiles(root, lower) <==> path in multiset(Visit(root, "", lower));
    PartsWrittenOut(path, lower);
    if path in Visit(root, "", lower) {
      var names := FoundInNode(Dir(root), "", lower, path);
      RootNames(root, names);
    }
    forall names | names != [] && LeadsTo(Dir(root), names) && path == Join(names, '/') && Resolves(path, lower)
      ensures path in Visit(root, "", lower)
    {
      RootNames(root, names);
      ListedInNode(Dir(root), "", lower, names);
    }
  }

  lemma RootNames(root: seq<Entry>, names: seq<string>)
    requires (forall e | e in root :: e.name != "") && LeadsTo(Dir(root), names)
    ensures names != [] && Below("", names) == Join(names, '/')
  {
    var i :| 0 <= i < |root| && root[i].name == names[0];
    assert root[i] in root;
    BelowIsJoined(names[0], names[1..]);
    assert [names[0]] + names[1..] == names;
  }

  lemma PartsWrittenOut(path: string, lower: Folding)
    ensures !Protected(path, lower) <==>
              forall part | part in Split(path, '/') ::
                var p := ToLower(part, lower);
                && p != ".git" && !HasPrefix(p, ".env")
                && !Contains(p, "secret") && !Contains(p, "credential") && !Contains(p, "vault")
  {
    LowerParts(path, lower);
    var parts, lowered := Split(path, '/'), Split(ToLower(path, lower), '/');
    forall part | part in parts ensures ToLower(part, lower) in lowered {
      var k :| 0 <= k < |parts| && parts[k] == part;
      assert lowered[k] in lowered;
    }
    forall p | p in lowered ensures exists part | part in parts :: p == ToLower(part, lower) {
      var k :| 0 <= k < |lowered| && lowered[k] == p;
      assert parts[k] in parts;
    }
  }

  // ---------------------------------------------------------------- the bounded walk

  /** An unexpanded entry. The key of a directory ends in a slash; its path does not. */
  datatype Pending = Pending(path: string, node: Node) {
    function Key(): string { if node.Dir? then path + "/" else path }
  }

  function KeyOf(p: Pending): string { p.Key() }

  /** readDirectory: symbolic links are dropped. */
  function ReadDirectory(entries: seq<Entry>, dir: string): seq<Pending> {
    if entries == [] then []
    else
      var rest := ReadDirectory(entries[1..], dir);
      if entries[0].node.Symlink? then rest
      else [Pending(Child(dir, entries[0].name), entries[0].node)] + rest
  }

  /** Everything the complete walk would list below the pending entries. */
  function Outstanding(pending: seq<Pending>, lower: Folding): seq<string> {
    if pending == [] then []
    else VisitNode(pending[0].node, pending[0].path, lower) + Outstanding(pending[1..], lower)
  }

  ghost function NodeWeight(node: Node): nat
    decreases node, 0
  {
    match node
    case Dir(entries) => 1 + EntriesWeight(entries)
    case _ => 1
  }

  ghost function EntriesWeight(entries: seq<Entry>): nat
    decreases entries
  {
    if entries == [] then 0 else NodeWeight(entries[0].node) + EntriesWeight(entries[1..])
  }

  ghost function Weight(pending: seq<Pending>): nat {
    if pending == [] then 0 else NodeWeight(pending[0].node) + Weight(pending[1..])
  }

  lemma {:induction false} ConcatPending(a: seq<Pending>, b: seq<Pending>, lower: Folding)
    ensures Outstanding(a + b, lower) == Outstanding(a, lower) + Outstanding(b, lower)
    ensures Weight(a + b) == Weight(a) + Weight(b)
  {
    if a == [] {
      assert a + b == b;
    } else {
      assert (a + b)[1..] == a[1..] + b;
      ConcatPending(a[1..], b, lower);
    }
  }

  lemma {:induction false} InsertPending(p: Pending, s: seq<Pending>, lower: Folding)
    ensures multiset(Outstanding(Insert(KeyOf, p, s), lower)) == multiset(Outstanding([p] + s, lower))
    ensures Weight(Insert(KeyOf, p, s)) == NodeWeight(p.node) + Weight(s)
  {
    assert ([p] + s)[1..] == s;
    if s != [] && !Leq(p.Key(), s[0].Key()) {
      var tail := Insert(KeyOf, p, s[1..]);
      InsertPending(p, s[1..], lower);
      assert Insert(KeyOf, p, s) == [s[0]] + tail;
      assert ([s[0]] + tail)[1..] == tail && ([p] + s[1..])[1..] == s[1..];
    }
  }

  /** Sorting the pending entries changes neither what is outstanding nor the work left. */
  lemma {:induction false} SortPending(s: seq<Pending>, lower: Folding)
    ensures multiset(Outstanding(SortBy(KeyOf, s), lower)) == multiset(Outstanding(s, lower))
    ensures Weight(SortBy(KeyOf, s)) == Weight(s)
  {
    if s != [] {
      SortPending(s[1..], lower);
      var sorted := SortBy(KeyOf, s[1..]);
      InsertPending(s[0], sorted, lower);
      assert ([s[0]] + sorted)[1..] == sorted;
    }
  }

  /** Expanding a directory replaces it by exactly what the complete walk lists below it. */
  lemma {:induction false} ReadDirectoryIsVisit(entries: seq<Entry>, dir: string, lower: Folding)
    ensures Outstanding(ReadDirectory(entries, dir), lower) == Visit(entries, dir, lower)
    ensures Weight(ReadDirectory(entries, dir)) <= EntriesWeight(entries)
  {
    if entries != [] {
      ReadDirectoryIsVisit(entries[1..], dir, lower);
    }
  }

  lemma {:induction false} ChildrenKeys(entries: seq<Entry>, dir: string)
    requires dir != ""
    ensures forall p | p in ReadDirectory(entries, dir) :: Leq(dir + "/", p.Key())
  {
    if entries != [] {
      ChildrenKeys(entries[1..], dir);
      var first := Pending(Child(dir, entries[0].name), entries[0].node);
      var suffix := entries[0].name + (if first.node.Dir? then "/" else "");
      LeqPrefix(dir + "/", suffix);
      assert first.Key() == dir + "/" + suffix;
    }
  }

  /** Every file below a pending entry sorts at or after the key of that entry. */
  lemma {:induction false} BelowKey(node: Node, path: string, lower: Folding)
    requires path != ""
    ensures forall f | f in VisitNode(node, path, lower) :: Leq(Pending(path, node).Key(), f)
    decreases node, 0
  {
    LeqTotal(path, path);
    if node.Dir? {
      VisitBelow(node.entries, path, lower);
    }
  }

  lemma {:induction false} VisitBelow(entries: seq<Entry>, dir: string, lower: Folding)
    requires dir != ""
    ensures forall f | f in Visit(entries, dir, lower) :: Leq(dir + "/", f)
    decreases entries
  {
    if entries != [] {
      var path := Child(dir, entries[0].name);
      var first := Pending(path, entries[0].node);
      BelowKey(entries[0].node, path, lower);
      VisitBelow(entries[1..], dir, lower);
      var suffix := entries[0].name + (if first.node.Dir? then "/" else "");
      LeqPrefix(dir + "/", suffix);
      assert first.Key() == dir + "/" + suffix;
      forall f | f in VisitNode(entries[0].node, path, lower) ensures Leq(dir + "/", f) {
        LeqTransitive(dir + "/", first.Key(), f);
      }
    }
  }

  /** Nothing is listed below a directory that does not resolve, so skipping it loses nothing. */
  lemma {:induction false} UnresolvedListsNothing(entries: seq<Entry>, dir: string, lower: Folding)
    requires dir != "" && !Resolves(dir, lower)
    ensures Visit(entries, dir, lower) == []
    decreases entries
  {
    if entries != [] {
      var path := Child(dir, entries[0].name);
      ProtectionIsInherited(dir, entries[0].name, lower);
      match entries[0].node {
        case File =>
        case Symlink =>
        case Dir(children) => UnresolvedListsNothing(children, path, lower);
      }
      UnresolvedListsNothing(entries[1..], dir, lower);
    }
  }

  predicate AllKeysAtLeast(bound: string, pending: seq<Pending>) {
    forall p | p in pending :: Leq(bound, p.Key())
  }

  predicate AllAtLeast(bound: string, files: seq<string>) {
    forall f | f in files :: Leq(bound, f)
  }

  lemma {:induction false} OutstandingAtLeast(bound: string, pending: seq<Pending>, lower: Folding)
    requires AllKeysAtLeast(bound, pending)
    requires forall p | p in pending :: p.path != ""
    ensures AllAtLeast(bound, Outstanding(pending, lower))
  {
    if pending != [] {
      var p := pending[0];
      BelowKey(p.node, p.path, lower);
      forall f | f in VisitNode(p.node, p.path, lower) ensures Leq(bound, f) {
        LeqTransitive(bound, p.Key(), f);
      }
      OutstandingAtLeast(bound, pending[1..], lower);
    }
  }

  /** Files already emitted are the beginning of the sorted complete walk. */
  lemma EmittedIsPrefix(paths: seq<string>, rest: seq<string>, all: seq<string>)
    requires Sorted(paths)
    requires forall f | f in paths :: AllAtLeast(f, rest)
    requires multiset(paths) + multiset(rest) == multiset(all)
    ensures SortStrings(all) == paths + SortStrings(rest)
  {
    SortBySorts(Identity, rest);
    SortBySorts(Identity, all);
    var tail := SortStrings(rest);
    forall i, j | 0 <= i < j < |paths + tail| ensures Leq((paths + tail)[i], (paths + tail)[j]) {
      if i < |paths| <= j {
        assert tail[j - |paths|] in multiset(tail);
        assert AllAtLeast(paths[i], rest);
      } else if j < |paths| {
        assert Leq(Identity(paths[i]), Identity(paths[j]));
      } else {
        assert Leq(Identity(tail[i - |paths|]), Identity(tail[j - |paths|]));
      }
    }
    SortedIsUnique(SortStrings(all), paths + tail);
  }

  /** Popping the first of the sorted pending entries gives a bound for everything that stays. */
  lemma PopLeast(pending: seq<Pending>) returns (sorted: seq<Pending>)
    requires pending != []
    ensures sorted == SortBy(KeyOf, pending) && sorted != []
    ensures sorted[0] in pending
    ensures forall p | p in sorted :: p in pending
    ensures AllKeysAtLeast(sorted[0].Key(), sorted[1..])
  {
    sorted := SortBy(KeyOf, pending);
    assert |sorted| == |multiset(sorted)| == |pending|;
    SortBySorts(KeyOf, pending);
    forall p | p in sorted ensures p in pending {
      assert p in multiset(sorted);
    }
    forall p | p in sorted[1..] ensures Leq(sorted[0].Key(), p.Key()) {
      var i :| 1 <= i < |sorted| && sorted[i] == p;
      assert Leq(KeyOf(sorted[0]), KeyOf(sorted[i]));
    }
  }

  ghost predicate BoundedBy(bounds: seq<string>, pending: seq<Pending>) {
    forall b | b in bounds :: AllKeysAtLeast(b, pending)
  }

  lemma BoundsSurvive(bounds: seq<string>, before: seq<Pending>, after: seq<Pending>, key: string)
    requires BoundedBy(bounds, before)
    requires exists p | p in before :: p.Key() == key
    requires forall p | p in after :: p in before || Leq(key, p.Key())
    ensures BoundedBy(bounds, after)
  {
    forall b, p | b in bounds && p in after ensures Leq(b, p.Key()) {
      if p !in before {
        LeqTransitive(b, key, p.Key());
      }
    }
  }

  /** What readDirectory puts into the pending list. */
  predicate Listed(pending: seq<Pending>) {
    forall p | p in pending :: p.path != "" && !p.node.Symlink?
  }

  lemma {:induction false} ReadDirectoryLists(entries: seq<Entry>, dir: string)
    requires dir != "" || forall e | e in entries :: e.name != ""
    ensures Listed(ReadDirectory(entries, dir))
  {
    if entries != [] {
      assert entries[0] in entries;
      ReadDirectoryLists(entries[1..], dir);
    }
  }

  /** Where the bounded walk stands: the emitted files and the outstanding ones make up the complete
      walk, and everything emitted or expanded so far sorts before everything pending. */
  ghost predicate Standing(paths: seq<string>, expanded: seq<string>, pending: seq<Pending>,
                           all: seq<string>, lower: Folding) {
    && Sorted(paths)
    && multiset(paths) + multiset(Outstanding(pending, lower)) == multiset(all)
    && BoundedBy(paths, pending) && BoundedBy(expanded, pending)
    && Listed(pending)
  }

  /** Sorting and popping: the popped entry and the others still stand for what was outstanding. */
  lemma Pop(paths: seq<string>, expanded: seq<string>, pending: seq<Pending>, all: seq<string>, lower: Folding)
    returns (next: Pending, rest: seq<Pending>)
    requires Standing(paths, expanded, pending, all, lower) && pending != []
    ensures SortBy(KeyOf, pending) == [next] + rest
    ensures next in pending && Listed([next]) && AllKeysAtLeast(next.Key(), rest)
    ensures multiset(paths) + multiset(VisitNode(next.node, next.path, lower)) + multiset(Outstanding(rest, lower))
         == multiset(all)
    ensures BoundedBy(paths, rest) && BoundedBy(expanded, rest) && Listed(rest)
    ensures NodeWeight(next.node) + Weight(rest) == Weight(pending)
  {
    var sorted := PopLeast(pending);
    SortPending(pending, lower);
    next, rest := sorted[0], sorted[1..];
    assert sorted == [next] + rest;
    BoundsSurvive(paths, pending, rest, next.Key());
    BoundsSurvive(expanded, pending, rest, next.Key());
  }

  lemma JoinBounds(bounds: seq<string>, before: seq<Pending>, rest: seq<Pending>, children: seq<Pending>, key: string)
    requires BoundedBy(bounds, before) && BoundedBy(bounds, rest)
    requires exists p | p in before :: p.Key() == key
    requires AllKeysAtLeast(key, children)
    ensures BoundedBy(bounds, rest + children)
  {
    BoundsSurvive(bounds, before, children, key);
  }

  lemma OneBound(key: string, rest: seq<Pending>, children: seq<Pending>)
    requires AllKeysAtLeast(key, rest) && AllKeysAtLeast(key, children)
    ensures BoundedBy([key], rest + children)
  {
  }

  lemma MoreBounds(a: seq<string>, b: seq<string>, pending: seq<Pending>)
    requires BoundedBy(a, pending) && BoundedBy(b, pending)
    ensures BoundedBy(a + b, pending)
  {
  }

  lemma ListedJoined(a: seq<Pending>, b: seq<Pending>)
    requires Listed(a) && Listed(b)
    ensures Listed(a + b)
  {
  }

  lemma OutstandingJoined(a: seq<Pending>, b: seq<Pending>, lower: Folding)
    ensures multiset(Outstanding(a + b, lower)) == multiset(Outstanding(a, lower)) + multiset(Outstanding(b, lower))
    ensures Weight(a + b) == Weight(a) + Weight(b)
  {
    ConcatPending(a, b, lower);
  }

  lemma Expand(paths: seq<string>, expanded: seq<string>, pending: seq<Pending>, all: seq<string>,
               lower: Folding, next: Pending, rest: seq<Pending>, children: seq<Pending>)
    requires Standing(paths, expanded, pending, all, lower)
    requires next in pending && next.node.Dir? && next.path != "" && AllKeysAtLeast(next.Key(), rest)
    requires multiset(paths) + multiset(Visit(next.node.entries, next.path, lower))
           + multiset(Outstanding(rest, lower)) == multiset(all)
    requires BoundedBy(paths, rest) && BoundedBy(expanded, rest) && Listed(rest)
    requires children == ReadDirectory(next.node.entries, next.path)
    ensures Standing(paths, expanded + [next.Key()], rest + children, all, lower)
    ensures Weight(rest + children) < NodeWeight(next.node) + Weight(rest)
  {
    hide ReadDirectory;
    hide Visit;
    hide Outstanding;
    hide BoundedBy;
    hide Sorted;
    var key := next.Key();
    ReadDirectoryIsVisit(next.node.entries, next.path, lower);
    ChildrenKeys(next.node.entries, next.path);
    assert AllKeysAtLeast(key, children);
    ReadDirectoryLists(next.node.entries, next.path);
    OutstandingJoined(rest, children, lower);
    JoinBounds(paths, pending, rest, children, key);
    JoinBounds(expanded, pending, rest, children, key);
    OneBound(key, rest, children);
    MoreBounds(expanded, [key], rest + children);
    ListedJoined(rest, children);
  }

  lemma Emit(paths: seq<string>, expanded: seq<string>, pending: seq<Pending>, all: seq<string>,
             lower: Folding, next: Pending, rest: seq<Pending>)
    requires Standing(paths, expanded, pending, all, lower)
    requires next in pending && next.Key() == next.path && AllKeysAtLeast(next.Key(), rest)
    requires multiset(paths) + multiset([next.path]) + multiset(Outstanding(rest, lower)) == multiset(all)
    requires BoundedBy(paths, rest) && BoundedBy(expanded, rest) && Listed(rest)
    ensures Standing(paths + [next.path], expanded, rest, all, lower)
    ensures forall key | key in expanded :: Leq(key, next.path)
  {
    var longer := paths + [next.path];
    forall i, j | 0 <= i < j < |longer| ensures Leq(longer[i], longer[j]) {
      if j < |paths| {
        assert Leq(Identity(paths[i]), Identity(paths[j]));
      } else {
        assert paths[i] in paths && AllKeysAtLeast(paths[i], pending);
      }
    }
    assert multiset(longer) == multiset(paths) + multiset([next.path]);
  }

  /** The emitted files are the beginning of the complete walk, and there are more iff some are outstanding. */
  lemma Emitted(paths: seq<string>, expanded: seq<string>, pending: seq<Pending>, all: seq<string>, lower: Folding)
    requires Standing(paths, expanded, pending, all, lower)
    ensures SortStrings(all) == paths + SortStrings(Outstanding(pending, lower))
    ensures pending == [] ==> SortStrings(all) == paths
  {
    forall f | f in paths ensures AllAtLeast(f, Outstanding(pending, lower)) {
      OutstandingAtLeast(f, pending, lower);
    }
    EmittedIsPrefix(paths, Outstanding(pending, lower), all);
  }

  /** One round of boundedFiles: what it may do with the least pending entry keeps the standing. */
  lemma Round(paths: seq<string>, expanded: seq<string>, pending: seq<Pending>, all: seq<string>, lower: Folding)
    returns (next: Pending, rest: seq<Pending>)
    requires Standing(paths, expanded, pending, all, lower) && pending != []
    ensures SortBy(KeyOf, pending) == [next] + rest
    ensures if next.node.Dir? then
              if IsGitDirectory(next.path) || !Resolves(next.path, lower) then
                Standing(paths, expanded, rest, all, lower) && Weight(rest) < Weight(pending)
              else
                var children := ReadDirectory(next.node.entries, next.path);
                && Standing(paths, expanded + [next.Key()], rest + children, all, lower)
                && Weight(rest + children) < Weight(pending)
            else if !Resolves(next.path, lower) then
              Standing(paths, expanded, rest, all, lower) && Weight(rest) < Weight(pending)
            else
              && Standing(paths + [next.path], expanded, rest, all, lower) && Weight(rest) < Weight(pending)
              && forall key | key in expanded :: Leq(key, next.path)
  {
    next, rest := Pop(paths, expanded, pending, all, lower);
    if next.node.Dir? {
      if !IsGitDirectory(next.path) {
        if Resolves(next.path, lower) {
          Expand(paths, expanded, pending, all, lower, next, rest, ReadDirectory(next.node.entries, next.path));
        } else {
          UnresolvedListsNothing(next.node.entries, next.path, lower);
        }
      }
    } else if Resolves(next.path, lower) {
      Emit(paths, expanded, pending, all, lower, next, rest);
    }
  }

  /** One round of the loop of boundedFiles. */
  method Turn(paths: seq<string>, ghost expanded: seq<string>, pending: seq<Pending>, ghost all: seq<string>, lower: Folding)
    returns (longer: seq<string>, ghost read: seq<string>, left: seq<Pending>)
    requires Standing(paths, expanded, pending, all, lower) && pending != []
    ensures Standing(longer, read, left, all, lower) && Weight(left) < Weight(pending)
    ensures longer == paths || (|longer| == |paths| + 1 && read == expanded
                                && forall key | key in read :: Leq(key, longer[|paths|]))
  {
    ghost var first, rest := Round(paths, expanded, pending, all, lower);
    var sorted := SortBy(KeyOf, pending);
    var next := sorted[0];
    left := sorted[1..];
    assert next == first && left == rest;
    longer, read := paths, expanded;
    if next.node.Dir? {
      if !IsGitDirectory(next.path) && Resolves(next.path, lower) {
        left := left + ReadDirectory(next.node.entries, next.path);
        read := expanded + [next.Key()];
      }
    } else if Resolves(next.path, lower) {
      longer := paths + [next.path];
    }
  }

  /** Before the first round nothing is emitted, and the listing of the root stands for everything. */
  lemma Begun(root: seq<Entry>, lower: Folding)
    requires forall e | e in root :: e.name != ""
    ensures Standing([], [], ReadDirectory(root, ""), Visit(root, "", lower), lower)
  {
    ReadDirectoryIsVisit(root, "", lower);
    ReadDirectoryLists(root, "");
  }

  /** The files found before the limit is passed are the first ones of the walk. */
  lemma FirstFiles(walk: seq<string>, paths: seq<string>, more: seq<string>, limit: nat)
    requires walk == paths + more && |paths| == limit + 1
    ensures |walk| > limit && walk[..limit] == paths[..limit] && walk[limit] == paths[limit]
  {
  }

  lemma WalkIsInOrder(root: seq<Entry>, lower: Folding)
    ensures var files := WalkAllFiles(root, lower); forall i, j | 0 <= i < j < |files| :: InOrder(files[i], files[j])
  {
    var files := WalkAllFiles(root, lower);
    SortBySorts(Identity, Visit(root, "", lower));
    forall i, j | 0 <= i < j < |files| ensures InOrder(files[i], files[j]) {
      assert Leq(Identity(files[i]), Identity(files[j]));
      LeqIsInOrder(files[i], files[j]);
    }
  }

  /** boundedFiles: the first "limit" files of the complete sorted walk, and whether there are more.
      No directory is read that sorts after the first file left out. */
  method BoundedFiles(root: seq<Entry>, limit: nat, lower: Folding)
    returns (files: seq<string>, truncated: bool, ghost expanded: seq<string>)
    requires forall e | e in root :: e.name != ""
    ensures truncated <==> |WalkAllFiles(root, lower)| > limit
    ensures files == if truncated then WalkAllFiles(root, lower)[..limit] else WalkAllFiles(root, lower)
    ensures forall i, j | 0 <= i < j < |files| :: InOrder(files[i], files[j])
    ensures truncated ==> forall key | key in expanded :: Leq(key, WalkAllFiles(root, lower)[limit])
  {
    hide Visit;
    hide SortBy;
    hide ReadDirectory;
    hide Standing;
    hide Outstanding;
    hide InOrder;
    WalkIsInOrder(root, lower);
    ghost var all := Visit(root, "", lower);
    var pending := ReadDirectory(root, "");
    Begun(root, lower);
    var paths: seq<string> := [];
    expanded := [];
    while pending != []
      invariant |paths| <= limit
      invariant Standing(paths, expanded, pending, all, lower)
      decreases Weight(pending)
    {
      paths, expanded, pending := Turn(paths, expanded, pending, all, lower);
      if |paths| > limit {
        Emitted(paths, expanded, pending, all, lower);
        FirstFiles(WalkAllFiles(root, lower), paths, SortStrings(Outstanding(pending, lower)), limit);
        return paths[..limit], true, expanded;
      }
    }
    Emitted(paths, expanded, pending, all, lower);
    return paths, false, expanded;
  }
}
