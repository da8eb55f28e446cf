/**
 * Object keys, file paths and public URLs: app/lib/storage/storage.go,
 * app/lib/storage/local.go and keyFromURL of app/services/user.go.
 */
module StoragePaths {
  import opened Wrappers

  // ---- Slash-separated paths ------------------------------------------------------------

  function Split(s: string): (r: seq<string>)
    ensures r != []
  {
    if s == "" then [""]
    else
      var rest := Split(s[1..]);
      if s[0] == '/' then [""] + rest else [[s[0]] + rest[0]] + rest[1..]
  }

  function Join(cs: seq<string>): string {
    if cs == [] then "" else if |cs| == 1 then cs[0] else cs[0] + "/" + Join(cs[1..])
  }

  predicate NoSlash(c: string) {
    '/' !in c
  }

  lemma {:induction false} SplitHasNoSlashes(s: string)
    ensures forall c <- Split(s) :: NoSlash(c)
  {
    if s != "" {
      SplitHasNoSlashes(s[1..]);
      var rest := Split(s[1..]);
      assert rest[0] in rest;
    }
  }

  lemma {:induction false} SplitConcat(a: string, b: string)
    ensures Split(a + "/" + b) == Split(a) + Split(b)
  {
    var all := a + "/" + b;
    if a == "" {
      assert all[1..] == b;
    } else {
      assert all[1..] == a[1..] + "/" + b;
      SplitConcat(a[1..], b);
    }
  }

  lemma {:induction false} SplitOne(c: string)
    requires NoSlash(c)
    ensures Split(c) == [c]
  {
    if c != "" {
      SplitOne(c[1..]);
      assert c == [c[0]] + c[1..];
    }
  }

  lemma {:induction false} SplitUndoesJoin(cs: seq<string>)
    requires cs != [] && forall c <- cs :: NoSlash(c)
    ensures Split(Join(cs)) == cs
  {
    SplitOne(cs[0]);
    if |cs| > 1 {
      SplitUndoesJoin(cs[1..]);
      SplitConcat(cs[0], Join(cs[1..]));
    }
    assert cs == [cs[0]] + cs[1..];
  }

  lemma {:induction false} JoinConcat(a: seq<string>, b: seq<string>)
    requires a != [] && b != []
    ensures Join(a + b) == Join(a) + "/" + Join(b)
  {
    assert (a + b)[1..] == a[1..] + b;
    if |a| > 1 {
      JoinConcat(a[1..], b);
    }
  }

  // ---- path.Clean ------------------------------------------------------------------------

  /** Follows the components from the directory `at`. */
  function Walk(rooted: bool, at: seq<string>, cs: seq<string>): seq<string>
    decreases |cs|
  {
    if cs == [] then at
    else if cs[0] == "" || cs[0] == "." then Walk(rooted, at, cs[1..])
    else if cs[0] != ".." then Walk(rooted, at + [cs[0]], cs[1..])
    else if at != [] && at[|at| - 1] != ".." then Walk(rooted, at[..|at| - 1], cs[1..])
    else Walk(rooted, if rooted then at else at + [".."], cs[1..])
  }

  function Clean(p: string): string {
    if p == "" then "."
    else if p[0] == '/' then "/" + Join(Walk(true, [], Split(p)))
    else
      var out := Join(Walk(false, [], Split(p)));
      if out == "" then "." else out
  }

  predicate IsName(c: string) {
    NoSlash(c) && c != "" && c != "." && c != ".."
  }

  predicate Names(cs: seq<string>) {
    forall i :: 0 <= i < |cs| ==> IsName(cs[i])
  }

  /** What is left of a list of components without "..". */
  function Kept(cs: seq<string>): seq<string> {
    if cs == [] then [] else (if cs[0] == "" || cs[0] == "." then [] else [cs[0]]) + Kept(cs[1..])
  }

  lemma {:induction false} WalkConcat(rooted: bool, at: seq<string>, a: seq<string>, b: seq<string>)
    ensures Walk(rooted, at, a + b) == Walk(rooted, Walk(rooted, at, a), b)
    decreases |a|
  {
    if a == [] {
      assert a + b == b;
    } else {
      assert (a + b)[1..] == a[1..] + b && (a + b)[0] == a[0];
      if a[0] == "" || a[0] == "." {
        WalkConcat(rooted, at, a[1..], b);
      } else if a[0] != ".." {
        WalkConcat(rooted, at + [a[0]], a[1..], b);
      } else if at != [] && at[|at| - 1] != ".." {
        WalkConcat(rooted, at[..|at| - 1], a[1..], b);
      } else {
        WalkConcat(rooted, if rooted then at else at + [".."], a[1..], b);
      }
    }
  }

  lemma {:induction false} WalkFromRootNames(at: seq<string>, cs: seq<string>)
    requires Names(at) && forall c <- cs :: NoSlash(c)
    ensures Names(Walk(true, at, cs))
    decreases |cs|
  {
    if cs != [] {
      assert cs[0] in cs;
      if cs[0] == "" || cs[0] == "." {
        WalkFromRootNames(at, cs[1..]);
      } else if cs[0] != ".." {
        WalkFromRootNames(at + [cs[0]], cs[1..]);
      } else if at != [] {
        WalkFromRootNames(at[..|at| - 1], cs[1..]);
      } else {
        WalkFromRootNames(at, cs[1..]);
      }
    }
  }

  lemma {:induction false} WalkDown(rooted: bool, at: seq<string>, cs: seq<string>)
    requires forall i :: 0 <= i < |cs| ==> cs[i] != ".."
    ensures Walk(rooted, at, cs) == at + Kept(cs)
    decreases |cs|
  {
    if cs != [] {
      if cs[0] == "" || cs[0] == "." {
        WalkDown(rooted, at, cs[1..]);
      } else {
        WalkDown(rooted, at + [cs[0]], cs[1..]);
        assert at + [cs[0]] + Kept(cs[1..]) == at + Kept(cs);
      }
    }
  }

  lemma {:induction false} NamesAreKept(cs: seq<string>)
    requires Names(cs)
    ensures Kept(cs) == cs
  {
    if cs != [] {
      NamesAreKept(cs[1..]);
      assert cs == [cs[0]] + cs[1..];
    }
  }

  /** The directories from "/" to an absolute path. */
  function Steps(p: string): seq<string> {
    Walk(true, [], Split(p))
  }

  lemma StepsAreNames(p: string)
    ensures Names(Steps(p))
  {
    SplitHasNoSlashes(p);
    WalkFromRootNames([], Split(p));
  }

  lemma StepsOfJoin(cs: seq<string>)
    requires Names(cs)
    ensures Steps("/" + Join(cs)) == cs
  {
    if cs != [] {
      assert forall c <- cs :: NoSlash(c);
      SplitUndoesJoin(cs);
      NamesAreKept(cs);
      WalkDown(true, [], cs);
    }
    assert "" + "/" + Join(cs) == "/" + Join(cs);
    SplitConcat("", Join(cs));
    WalkConcat(true, [], [""], Split(Join(cs)));
  }

  /** Cleaning an absolute path twice is cleaning it once. */
  lemma CleanIsIdempotent(p: string)
    requires p != "" && p[0] == '/'
    ensures Clean(Clean(p)) == Clean(p) && Steps(Clean(p)) == Steps(p)
  {
    StepsAreNames(p);
    StepsOfJoin(Steps(p));
  }

  // ---- Local.resolve ------------------------------------------------------------------------

  predicate HasDoubleDot(s: string) {
    exists i :: 0 <= i < |s| - 1 && s[i] == '.' && s[i + 1] == '.'
  }

  predicate ValidKey(key: string) {
    key != "" && !HasDoubleDot(key) && key[0] != '/' && '\\' !in key
  }

  datatype KeyError = InvalidKey | EscapesRoot

  function Resolve(root: string, key: string): Result<string, KeyError> {
    if !ValidKey(key) then Err(InvalidKey)
    else
      var fullPath := Clean(root + "/" + key);
      if !(root + "/" <= fullPath) then Err(EscapesRoot) else Ok(fullPath)
  }

  /** filepath.Abs yields a cleaned absolute path. */
  predicate IsRoot(root: string) {
    root != "" && root[0] == '/' && Clean(root) == root
  }

  /** The path lies strictly below the root, `tail` steps down. */
  ghost predicate Below(root: string, path: string, tail: seq<string>) {
    tail != [] && Names(tail) && Steps(path) == Steps(root) + tail && path == root + "/" + Join(tail)
  }

  lemma NoDoubleSlash(cs: seq<string>)
    requires Names(cs)
    ensures !("//" <= "/" + Join(cs))
  {
    if cs != [] {
      CleanRelative(cs);
      assert ("/" + Join(cs))[1] == Join(cs)[0];
    }
  }

  /** A prefix that ends in a slash ends between two components. */
  lemma PrefixOfNames(above: seq<string>, all: seq<string>, rest: string)
    requires above != [] && Names(above) && Names(all) && "/" + Join(all) == "/" + Join(above) + "/" + rest
    ensures Split(rest) != [] && all == above + Split(rest) && Join(Split(rest)) == rest
  {
    RootedSplit(above);
    SplitBelow("/" + Join(above), above, rest);
    RootedSplit(all);
    assert all != [];
    SameRest("", all, above + Split(rest));
    SplitThenJoin(rest);
  }

  lemma SplitBelow(root: string, above: seq<string>, rest: string)
    requires Split(root) == [""] + above
    ensures Split(root + "/" + rest) == [""] + (above + Split(rest))
  {
    SplitConcat(root, rest);
  }

  lemma SameRest(head: string, a: seq<string>, b: seq<string>)
    requires [head] + a == [head] + b
    ensures a == b
  {
    assert a == ([head] + a)[1..] == b;
  }

  /**
   * The prefix comparison alone contains every key, also one with "..", as
   * the path was cleaned first.
   */
  lemma PrefixCheckContains(root: string, p: string) returns (tail: seq<string>)
    requires IsRoot(root) && p != "" && p[0] == '/' && root + "/" <= Clean(p)
    ensures Below(root, Clean(p), tail)
  {
    CleanIsIdempotent(p);
    StepsAreNames(p);
    StepsAreNames(root);
    NoDoubleSlash(Steps(p));
    var rest := Clean(p)[|root| + 1..];
    assert Clean(p) == root + "/" + rest;
    PrefixOfNames(Steps(root), Steps(p), rest);
    tail := Split(rest);
    assert forall i :: 0 <= i < |tail| ==> tail[i] == Steps(p)[|Steps(root)| + i];
  }

  lemma {:induction false} SplitThenJoin(s: string)
    ensures Join(Split(s)) == s
  {
    if s != "" {
      SplitThenJoin(s[1..]);
      var rest, all := Split(s[1..]), Split(s);
      assert s == [s[0]] + s[1..];
      if s[0] == '/' {
        assert all[1..] == rest;
      } else {
        assert all[1..] == rest[1..] && all[0] == [s[0]] + rest[0];
        JoinHead(s[0], all, rest);
      }
    }
  }

  lemma JoinHead(c: char, all: seq<string>, rest: seq<string>)
    requires all != [] && rest != [] && all[0] == [c] + rest[0] && all[1..] == rest[1..]
    ensures Join(all) == [c] + Join(rest)
  {
  }

  lemma RootedSplit(cs: seq<string>)
    requires Names(cs)
    ensures Split("/" + Join(cs)) == [""] + (if cs == [] then [""] else cs)
  {
    assert "" + "/" + Join(cs) == "/" + Join(cs);
    SplitConcat("", Join(cs));
    if cs != [] {
      assert forall c <- cs :: NoSlash(c);
      SplitUndoesJoin(cs);
    }
  }

  lemma {:induction false} JoinShowsDots(cs: seq<string>)
    requires ".." in cs
    ensures HasDoubleDot(Join(cs))
  {
    if cs[0] == ".." {
      assert Join(cs)[0] == '.' && Join(cs)[1] == '.';
    } else {
      JoinShowsDots(cs[1..]);
      var rest := Join(cs[1..]);
      var i :| 0 <= i < |rest| - 1 && rest[i] == '.' && rest[i + 1] == '.';
      assert Join(cs)[|cs[0]| + 1 + i] == '.' && Join(cs)[|cs[0]| + 1 + i + 1] == '.';
    }
  }

  /** Where a valid key leads, before the prefix comparison. */
  lemma KeyLeadsDown(root: string, key: string)
    requires IsRoot(root) && ValidKey(key)
    ensures Names(Kept(Split(key))) && Steps(root + "/" + key) == Steps(root) + Kept(Split(key))
  {
    var cs := Split(key);
    SplitThenJoin(key);
    if ".." in cs {
      JoinShowsDots(cs);
    }
    SplitHasNoSlashes(key);
    WalkDown(true, [], cs);
    assert [] + Kept(cs) == Kept(cs);
    WalkFromRootNames([], cs);
    SplitConcat(root, key);
    WalkConcat(true, [], Split(root), cs);
    WalkDown(true, Steps(root), cs);
  }

  /** Containment: an accepted key names a file strictly below the root, reached without any "..". */
  lemma AcceptedKeysStayInside(root: string, key: string)
    requires IsRoot(root) && Resolve(root, key).Ok?
    ensures Below(root, Resolve(root, key).value, Kept(Split(key)))
  {
    var p := root + "/" + key;
    var tail := PrefixCheckContains(root, p);
    KeyLeadsDown(root, key);
    CleanIsIdempotent(p);
    assert tail == (Steps(root) + tail)[|Steps(root)|..] == Kept(Split(key));
  }

  lemma PathOfKey(root: string, key: string)
    requires IsRoot(root) && ValidKey(key)
    ensures Clean(root + "/" + key) == "/" + Join(Steps(root) + Kept(Split(key)))
  {
    KeyLeadsDown(root, key);
    assert (root + "/" + key)[0] == '/';
  }

  lemma PathIsBelow(root: string, tail: seq<string>)
    requires IsRoot(root) && root != "/" && tail != []
    ensures "/" + Join(Steps(root) + tail) == root + "/" + Join(tail)
  {
    assert root == "/" + Join(Steps(root));
    assert Steps(root) != [];
    JoinConcat(Steps(root), tail);
  }

  /** Exactly when a key is accepted; a store rooted at "/" accepts none. */
  lemma AcceptedIff(root: string, key: string)
    requires IsRoot(root)
    ensures Resolve(root, key).Ok? <==> ValidKey(key) && root != "/" && Kept(Split(key)) != []
  {
    if ValidKey(key) {
      PathOfKey(root, key);
      if root == "/" {
        NothingBelowSlash(key);
      } else if Kept(Split(key)) != [] {
        PathIsBelow(root, Kept(Split(key)));
      } else {
        assert Steps(root) + Kept(Split(key)) == Steps(root);
        assert Clean(root + "/" + key) == root;
      }
    }
  }

  lemma NothingBelowSlash(key: string)
    requires IsRoot("/") && ValidKey(key)
    ensures Resolve("/", key).Err?
  {
    StepsAreNames("/" + "/" + key);
    NoDoubleSlash(Steps("/" + "/" + key));
  }

  /** Two accepted keys name the same file iff they differ only in empty and "." components. */
  lemma SameFileIff(root: string, a: string, b: string)
    requires IsRoot(root) && Resolve(root, a).Ok? && Resolve(root, b).Ok?
    ensures Resolve(root, a) == Resolve(root, b) <==> Kept(Split(a)) == Kept(Split(b))
  {
    AcceptedKeysStayInside(root, a);
    AcceptedKeysStayInside(root, b);
    var above := |Steps(root)|;
    assert (Steps(root) + Kept(Split(a)))[above..] == Kept(Split(a));
    assert (Steps(root) + Kept(Split(b)))[above..] == Kept(Split(b));
  }

  // ---- Public URLs -----------------------------------------------------------------------------

  function TrimRightSlashes(s: string): string {
    if s != "" && s[|s| - 1] == '/' then TrimRightSlashes(s[..|s| - 1]) else s
  }

  /** Local.URL, for the configured public address. */
  function Url(publicBase: string, key: string): string {
    TrimRightSlashes(publicBase) + "/" + (if "/" <= key then key[1..] else key)
  }

  function KeyFromUrl(publicBase: string, rawUrl: string): string {
    var base := TrimRightSlashes(publicBase) + "/";
    if !(base <= rawUrl) then "" else rawUrl[|base|..]
  }

  /** Every usable key survives the way into a user's row and back; a foreign address yields no key. */
  lemma KeyRoundTrip(publicBase: string, key: string, rawUrl: string)
    requires ValidKey(key)
    ensures KeyFromUrl(publicBase, rawUrl) == key <==> rawUrl == Url(publicBase, key)
  {
    var base := TrimRightSlashes(publicBase) + "/";
    if base <= rawUrl {
      assert rawUrl == base + rawUrl[|base|..];
    }
    assert (base + key)[|base|..] == key;
  }

  /** The public address may be configured with or without slashes at its end. */
  lemma {:induction false} UrlIgnoresSlashes(publicBase: string, slashes: nat, key: string)
    requires publicBase == "" || publicBase[|publicBase| - 1] != '/'
    requires ValidKey(key)
    ensures Url(publicBase + seq(slashes, _ => '/'), key) == publicBase + "/" + key
  {
    var s := publicBase + seq(slashes, _ => '/');
    if slashes == 0 {
      assert s == publicBase;
    } else {
      assert s[..|s| - 1] == publicBase + seq(slashes - 1, _ => '/') && s[|s| - 1] == '/';
      UrlIgnoresSlashes(publicBase, slashes - 1, key);
    }
  }

  // ---- New keys ----------------------------------------------------------------------------------

  /** path.Ext: from the last dot of the last component. */
  function Ext(s: string): string {
    if s == "" || s[|s| - 1] == '/' then ""
    else if s[|s| - 1] == '.' then "."
    else
      var e := Ext(s[..|s| - 1]);
      if e == "" then "" else e + [s[|s| - 1]]
  }

  function ByteLength(s: string): nat {
    if s == "" then 0
    else
      var n := s[0] as int;
      (if n < 0x80 then 1 else if n < 0x800 then 2 else if n < 0x1_0000 then 3 else 4) + ByteLength(s[1..])
  }

  function Lower(lower: char -> char, s: string): string {
    seq(|s|, i requires 0 <= i < |s| => lower(s[i]))
  }

  /** Lower case makes no dot, slash or backslash out of other characters, nor changes one. */
  ghost predicate SparesMarks(lower: char -> char) {
    forall c :: (lower(c) == '.' <==> c == '.') && (lower(c) == '/' <==> c == '/') && (lower(c) == '\\' <==> c == '\\')
  }

  function KeptExt(lower: char -> char, filename: string): string {
    var ext := Lower(lower, Ext(filename));
    if ByteLength(ext) > 10 then "" else ext
  }

  function TrimSlashes(s: string): string {
    if s != "" && s[0] == '/' then TrimSlashes(s[1..]) else TrimRightSlashes(s)
  }

  function CleanPrefix(prefix: string): string {
    TrimSlashes(Clean("/" + prefix))
  }

  /** path.Join of two elements, of which only the first may be empty. */
  function JoinTwo(a: string, b: string): string {
    Clean(if a == "" then b else a + "/" + b)
  }

  function BuildKey(lower: char -> char, uuid: string, prefix: string, filename: string): string {
    var name := uuid + KeptExt(lower, filename);
    if prefix == "" then name else JoinTwo(CleanPrefix(prefix), name)
  }

  /** The characters of a UUID's text. */
  predicate IsUuidText(s: string) {
    s != "" && forall i :: 0 <= i < |s| ==> s[i] != '.' && s[i] != '/' && s[i] != '\\'
  }

  predicate IsExt(e: string) {
    e == "" || (e[0] == '.' && forall i :: 1 <= i < |e| ==> e[i] != '.' && e[i] != '/')
  }

  lemma {:induction false} ExtIsExt(s: string)
    ensures IsExt(Ext(s))
  {
    if s != "" {
      ExtIsExt(s[..|s| - 1]);
    }
  }

  /** The extension is what follows the last dot of the last component, with the dot, and nothing without one. */
  lemma {:induction false} ExtIsTheLastDots(s: string, stem: string, tail: string)
    requires s == stem + tail && (stem == "" || tail == "" || tail[0] == '.' || stem[|stem| - 1] == '/')
    requires forall i :: 0 <= i < |tail| ==> tail[i] != '/' && (i > 0 ==> tail[i] != '.')
    requires tail == "" ==> stem == "" || stem[|stem| - 1] == '/'
    ensures Ext(s) == if tail != "" && tail[0] == '.' then tail else ""
    decreases |tail|
  {
    if tail != "" {
      var n := |tail| - 1;
      assert s[..|s| - 1] == stem + tail[..n] && s[|s| - 1] == tail[n];
      if n > 0 {
        ExtIsTheLastDots(s[..|s| - 1], stem, tail[..n]);
        assert tail == tail[..n] + [tail[n]];
      } else if tail[0] != '.' {
        NoExtAfterSlash(stem);
        assert s[..|s| - 1] == stem;
      }
    } else {
      NoExtAfterSlash(stem);
      assert s == stem;
    }
  }

  lemma NoExtAfterSlash(stem: string)
    requires stem == "" || stem[|stem| - 1] == '/'
    ensures Ext(stem) == ""
  {
  }

  /** The lower-case extension is kept up to ten bytes; ASCII characters have one each, others more. */
  lemma ExtensionIsKept(lower: char -> char, filename: string)
    ensures var ext, kept := Ext(filename), KeptExt(lower, filename);
      && (kept != "" ==> |kept| == |ext| <= 10 && forall i :: 0 <= i < |ext| ==> kept[i] == lower(ext[i]))
      && ((forall i :: 0 <= i < |ext| ==> lower(ext[i]) as int < 0x80) && |ext| <= 10 ==>
            |kept| == |ext| && forall i :: 0 <= i < |ext| ==> kept[i] == lower(ext[i]))
  {
    BytesAtLeastCharacters(Lower(lower, Ext(filename)));
  }

  lemma {:induction false} BytesAtLeastCharacters(s: string)
    ensures |s| <= ByteLength(s) <= 4 * |s|
    ensures ByteLength(s) == |s| <==> forall i :: 0 <= i < |s| ==> s[i] as int < 0x80
  {
    if s != "" {
      BytesAtLeastCharacters(s[1..]);
      assert s == [s[0]] + s[1..];
    }
  }

  /** The key of a new avatar. */
  lemma AvatarKey(lower: char -> char, uuid: string, filename: string)
    requires SparesMarks(lower) && IsUuidText(uuid)
    ensures BuildKey(lower, uuid, "avatars", filename) == "avatars/" + uuid + KeptExt(lower, filename)
  {
    NewKeyIsCanonical(lower, uuid, "avatars", filename);
    AvatarsDirectory();
    JoinUnder("avatars", uuid + KeptExt(lower, filename));
    assert "avatars" + "/" + (uuid + KeptExt(lower, filename)) == "avatars/" + uuid + KeptExt(lower, filename);
  }

  lemma AvatarsDirectory()
    ensures Steps("/" + "avatars") == ["avatars"]
  {
    assert "avatars"[0] == 'a';
    StepsOfJoin(["avatars"]);
    assert Join(["avatars"]) == "avatars";
  }

  lemma JoinUnder(directory: string, name: string)
    ensures Join([directory] + [name]) == directory + "/" + name
  {
    assert ([directory] + [name])[1..] == [name];
  }

  lemma CleanRelative(cs: seq<string>)
    requires cs != [] && Names(cs)
    ensures Clean(Join(cs)) == Join(cs) && Kept(Split(Join(cs))) == cs && Join(cs) != "" && Join(cs)[0] != '/'
  {
    assert forall c <- cs :: NoSlash(c);
    SplitUndoesJoin(cs);
    NamesAreKept(cs);
    WalkDown(false, [], cs);
    assert [] + cs == cs;
    assert Join(cs)[0] == cs[0][0];
  }

  lemma {:induction false} JoinEndsInName(cs: seq<string>)
    requires cs != [] && Names(cs)
    ensures Join(cs) != "" && Join(cs)[|Join(cs)| - 1] != '/'
  {
    if |cs| > 1 {
      JoinEndsInName(cs[1..]);
    }
  }

  lemma CleanPrefixIsJoin(prefix: string)
    ensures var cs := Steps("/" + prefix); Names(cs) && CleanPrefix(prefix) == Join(cs)
  {
    var cs := Steps("/" + prefix);
    StepsAreNames("/" + prefix);
    assert Clean("/" + prefix) == "/" + Join(cs);
    assert ("/" + Join(cs))[1..] == Join(cs);
    if cs == [] {
      assert TrimSlashes("/") == "";
    } else {
      JoinEndsInName(cs);
      CleanRelative(cs);
      assert TrimSlashes("/" + Join(cs)) == TrimSlashes(Join(cs)) == TrimRightSlashes(Join(cs));
    }
  }

  /** A new key lies in the cleaned prefix under its own name. */
  lemma NewKeyIsCanonical(lower: char -> char, uuid: string, prefix: string, filename: string)
    requires SparesMarks(lower) && IsUuidText(uuid)
    ensures var cs := Steps("/" + prefix) + [uuid + KeptExt(lower, filename)];
      Names(cs) && BuildKey(lower, uuid, prefix, filename) == Join(cs)
  {
    var name := uuid + KeptExt(lower, filename);
    ExtIsExt(filename);
    assert name[0] != '.' && name[0] != '/';
    assert IsName(name);
    CleanPrefixIsJoin(prefix);
    var above := Steps("/" + prefix);
    CleanRelative([name]);
    CleanRelative(above + [name]);
    if prefix == "" {
      StepsOfJoin([]);
      assert "/" + prefix == "/" + Join([]);
      assert above + [name] == [name];
    } else if above == [] {
      assert above + [name] == [name];
    } else {
      CleanRelative(above);
      JoinConcat(above, [name]);
    }
  }

  /**
   * A new key is usable iff neither its prefix nor its extension holds a
   * backslash and no name of the prefix holds "..": then it is the path
   * below the root, letter for letter.
   */
  lemma NewKeyIsUsableIff(lower: char -> char, uuid: string, prefix: string, filename: string, root: string)
    requires SparesMarks(lower) && IsUuidText(uuid) && IsRoot(root) && root != "/"
    ensures var key := BuildKey(lower, uuid, prefix, filename);
      Resolve(root, key) == if NewKeyFits(lower, prefix, filename) then Ok(root + "/" + key) else Err(InvalidKey)
  {
    var key, ext := BuildKey(lower, uuid, prefix, filename), KeptExt(lower, filename);
    var name, above := uuid + ext, Steps("/" + prefix);
    NewKeyIsCanonical(lower, uuid, prefix, filename);
    CleanPrefixIsJoin(prefix);
    CleanRelative(above + [name]);
    AcceptedIff(root, key);
    ExtIsExt(filename);
    NameHasNoDoubleDot(uuid, ext);
    if above == [] {
      assert above + [name] == [name];
    } else {
      JoinConcat(above, [name]);
      DotsAcrossSlash(Join(above), name);
    }
    if ValidKey(key) {
      AcceptedKeysStayInside(root, key);
    }
  }

  predicate NewKeyFits(lower: char -> char, prefix: string, filename: string) {
    !HasDoubleDot(CleanPrefix(prefix)) && '\\' !in CleanPrefix(prefix) && '\\' !in KeptExt(lower, filename)
  }

  lemma NameHasNoDoubleDot(uuid: string, ext: string)
    requires IsUuidText(uuid) && IsExt(ext)
    ensures !HasDoubleDot(uuid + ext)
  {
    var name := uuid + ext;
    forall i | 0 <= i < |name| - 1 ensures !(name[i] == '.' && name[i + 1] == '.') {
      if i < |uuid| {
        assert name[i] == uuid[i];
      } else {
        assert name[i + 1] == ext[i + 1 - |uuid|];
      }
    }
  }

  lemma DotsAcrossSlash(a: string, b: string)
    ensures HasDoubleDot(a + "/" + b) <==> HasDoubleDot(a) || HasDoubleDot(b)
  {
    var all := a + "/" + b;
    if HasDoubleDot(a) {
      var i :| 0 <= i < |a| - 1 && a[i] == '.' && a[i + 1] == '.';
      assert all[i] == '.' && all[i + 1] == '.';
    }
    if HasDoubleDot(b) {
      var i :| 0 <= i < |b| - 1 && b[i] == '.' && b[i + 1] == '.';
      assert all[|a| + 1 + i] == '.' && all[|a| + 1 + i + 1] == '.';
    }
    if HasDoubleDot(all) {
      var i :| 0 <= i < |all| - 1 && all[i] == '.' && all[i + 1] == '.';
      if i < |a| {
        assert a[i] == '.' && i + 1 < |a| && a[i + 1] == '.';
      } else {
        assert b[i - |a| - 1] == '.' && b[i - |a|] == '.';
      }
    }
  }
}
